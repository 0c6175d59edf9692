/** What the built packets mean: they parse back to their inputs, verify their own checksums,
    round-trip through the responder, and no single damaged byte goes unnoticed. */
module Echo {
  import opened Bytes
  import opened Checksum
  import opened Net
  import opened Packets

  datatype ReplyError =
    | ReplyTooShort
    | BadIPv4Checksum(got: uint16)
    | Malformed(reason: PacketError)
    | WrongSource
    | WrongReplyDestination
    | BadICMPChecksum(got: uint16)
    | NotEchoReply(kind: byte)
    | BadCode(code: byte)
    | WrongIdentifier
    | WrongSequence
    | WrongPayload

  /** validateEchoReply: None is acceptance. */
  function ValidateEchoReply(reply: seq<byte>, virtualIP: IP, clientIP: IP,
                             identifier: uint16, sequence: uint16, payload: seq<byte>): Option<ReplyError>
  {
    if |reply| < 20 then Some(ReplyTooShort) else
    if InternetChecksum(reply[..20]) != 0 then Some(BadIPv4Checksum(InternetChecksum(reply[..20]))) else
    match ParseIPv4Packet(reply)
    case Err(e) => Some(Malformed(e))
    case Ok(ip) =>
      if !Equal(ip.source, virtualIP) then Some(WrongSource) else
      if !Equal(ip.destination, clientIP) then Some(WrongReplyDestination) else
      if InternetChecksum(ip.payload) != 0 then Some(BadICMPChecksum(InternetChecksum(ip.payload))) else
      match ParseICMPPacket(ip.payload)
      case Err(e) => Some(Malformed(e))
      case Ok(icmp) =>
        if icmp.kind != ICMP_ECHO_REPLY then Some(NotEchoReply(icmp.kind)) else
        if icmp.code != 0 then Some(BadCode(icmp.code)) else
        if icmp.identifier != identifier then Some(WrongIdentifier) else
        if icmp.sequence != sequence then Some(WrongSequence) else
        if icmp.payload != payload then Some(WrongPayload) else
        None
  }

  /** What acceptance means, read off the bytes: both checksums verify, the two headers are well-formed
      and of the right kind, and addresses, identifier, sequence and payload are the expected ones. */
  lemma ReplyAcceptedExactly(reply: seq<byte>, virtualIP: IP, clientIP: IP,
                             identifier: uint16, sequence: uint16, payload: seq<byte>)
    ensures ValidateEchoReply(reply, virtualIP, clientIP, identifier, sequence, payload) == None
            <==> && |reply| >= 20
                 && reply[0] / 0x10 == 4 && reply[9] == 1
                 && Equal(reply[12..16], virtualIP) && Equal(reply[16..20], clientIP)
                 && InternetChecksum(reply[..20]) == 0
                 && var h, t := reply[0] % 0x10 * 4, Uint16(reply[2], reply[3]);
                    && 20 <= h && h + 8 <= t <= |reply|
                    && InternetChecksum(reply[h..t]) == 0
                    && reply[h] == 0 && reply[h + 1] == 0
                    && Uint16(reply[h + 4], reply[h + 5]) == identifier
                    && Uint16(reply[h + 6], reply[h + 7]) == sequence
                    && reply[h + 8..t] == payload
  {
    hide InternetChecksum, Equal;
    if |reply| >= 20 {
      var h, t := reply[0] % 0x10 * 4, Uint16(reply[2], reply[3]);
      if h + 8 <= t <= |reply| {
        IcmpBytes(reply, h, t);
      }
    }
  }

  lemma IcmpBytes(reply: seq<byte>, h: nat, t: nat)
    requires h + 8 <= t <= |reply|
    ensures var icmp := reply[h..t];
            && icmp[0] == reply[h] && icmp[1] == reply[h + 1] && icmp[4] == reply[h + 4] && icmp[5] == reply[h + 5]
            && icmp[6] == reply[h + 6] && icmp[7] == reply[h + 7] && icmp[8..] == reply[h + 8..t]
  {
  }

  // ---- Built pieces parse back and sum to zero ----

  lemma EchoMessageMeaning(kind: byte, identifier: uint16, sequence: uint16, payload: seq<byte>)
    ensures InternetChecksum(EchoMessage(kind, identifier, sequence, payload)) == 0
    ensures var p := ParseICMPPacket(EchoMessage(kind, identifier, sequence, payload));
            p.Ok? && p.value.kind == kind && p.value.code == 0 && p.value.identifier == identifier
            && p.value.sequence == sequence && p.value.payload == payload
  {
    var blank := BlankEcho(kind, identifier, sequence, payload);
    SelfVerifying(blank, 2);
    var message := EchoMessage(kind, identifier, sequence, payload);
    assert message[4..] == blank[4..];
    assert message[4] == blank[4] && message[5] == blank[5] && message[6] == blank[6] && message[7] == blank[7];
    assert message[8..] == payload;
  }

  lemma PatchKeeps(data: seq<byte>, k: nat, v: uint16)
    requires k + 2 <= |data|
    ensures Patch(data, k, v)[..k] == data[..k] && Patch(data, k, v)[k + 2..] == data[k + 2..]
  {
  }

  lemma FieldsAt(length: seq<byte>, source: IPv4, destination: IPv4)
    requires |length| == 2
    ensures var fields := HeaderFields(length, source, destination);
            && fields[..10] == [0x45, 0] + length + [0, 0, 0, 0, 64, IPV4_PROTOCOL_ICMP]
            && fields[10] == fields[11] == 0 && fields[12..] == source + destination
  {
  }

  lemma HeaderMeaning(totalLen: uint16, source: IPv4, destination: IPv4)
    ensures var h := Header(totalLen, source, destination);
            && InternetChecksum(h) == 0
            && h[0] == 0x45 && h[1] == 0 && Uint16(h[2], h[3]) == totalLen && h[4..8] == [0, 0, 0, 0]
            && h[8] == 64 && h[9] == IPV4_PROTOCOL_ICMP
            && h[12..16] == source && h[16..20] == destination
  {
    var length := PutUint16(totalLen);
    var blank := HeaderFields(length, source, destination);
    FieldsAt(length, source, destination);
    SelfVerifying(blank, 10);
    PatchKeeps(blank, 10, InternetChecksum(blank));
    hide InternetChecksum, HeaderFields, Patch;
    SameFields(Header(totalLen, source, destination), length, source, destination);
  }

  lemma SameFields(h: seq<byte>, length: seq<byte>, source: IPv4, destination: IPv4)
    requires |h| == 20 && |length| == 2 && h[12..] == source + destination
    requires h[..10] == [0x45, 0] + length + [0, 0, 0, 0, 64, IPV4_PROTOCOL_ICMP]
    ensures h[0] == 0x45 && h[1] == 0 && h[2] == length[0] && h[3] == length[1] && h[4..8] == [0, 0, 0, 0]
    ensures h[8] == 64 && h[9] == IPV4_PROTOCOL_ICMP && h[12..16] == source && h[16..20] == destination
  {
    assert h[0] == h[..10][0] && h[1] == h[..10][1] && h[2] == h[..10][2] && h[3] == h[..10][3];
    assert h[4..8] == h[..10][4..8] && h[8] == h[..10][8] && h[9] == h[..10][9];
    assert h[12..16] == h[12..][..4] && h[16..20] == h[12..][4..];
  }

  /** An IPv4 packet of this code parses back to exactly what went into it. */
  lemma PacketMeaning(source: IPv4, destination: IPv4, icmp: seq<byte>)
    requires 20 + |icmp| <= 0xffff
    ensures var p := Header(20 + |icmp|, source, destination) + icmp;
            && p[..20] == Header(20 + |icmp|, source, destination)
            && InternetChecksum(p[..20]) == 0
            && ParseIPv4Packet(p) == Ok(IPv4Packet(4, 20, |p|, IPV4_PROTOCOL_ICMP, source, destination, icmp))
  {
    var h := Header(20 + |icmp|, source, destination);
    HeaderMeaning(20 + |icmp|, source, destination);
    var p := h + icmp;
    assert p[..20] == h && p[20..|p|] == icmp;
    assert p[12..16] == h[12..16] && p[16..20] == h[16..20];
    assert p[0] == h[0] && p[2] == h[2] && p[3] == h[3] && p[9] == h[9];
  }

  // ---- The request builder ----

  /** Given IPv4 addresses, building a request fails exactly for payloads over 65507 bytes; a built
      request carries its parameters and both its checksums verify. */
  lemma RequestMeaning(source: IP, destination: IP, identifier: uint16, sequence: uint16, payload: seq<byte>)
    requires To4(source).Some? && To4(destination).Some?
    ensures var r := EchoRequest(source, destination, identifier, sequence, payload);
            && (r.Ok? <==> |payload| <= 65507)
            && (r.Err? ==> r.error == TooLarge)
            && (r.Ok? ==>
                  && |r.value| == 28 + |payload|
                  && InternetChecksum(r.value[..20]) == 0
                  && InternetChecksum(r.value[20..]) == 0
                  && ParseIPv4Packet(r.value) ==
                     Ok(IPv4Packet(4, 20, |r.value|, IPV4_PROTOCOL_ICMP, To4(source).value, To4(destination).value,
                                   EchoMessage(ICMP_ECHO_REQUEST, identifier, sequence, payload))))
  {
    var icmp := EchoMessage(ICMP_ECHO_REQUEST, identifier, sequence, payload);
    EchoMessageMeaning(ICMP_ECHO_REQUEST, identifier, sequence, payload);
    if |payload| <= 65507 {
      PacketMeaning(To4(source).value, To4(destination).value, icmp);
      var p := Header(20 + |icmp|, To4(source).value, To4(destination).value) + icmp;
      assert p[20..] == icmp;
    }
  }

  // ---- The responder: which bytes are answered, and with what ----

  /** The requests the responder at `server` answers, read off the bytes: header options and bytes
      after the IPv4 total length are allowed. */
  predicate Answerable(request: seq<byte>, server: IPv4) {
    && |request| >= 20
    && request[0] / 0x10 == 4
    && request[9] == 1
    && request[16..20] == server
    && var headerLen, totalLen := request[0] % 0x10 * 4, Uint16(request[2], request[3]);
       && 20 <= headerLen
       && headerLen + 8 <= totalLen <= |request|
       && request[headerLen] == 8
  }

  function ReplyLength(request: seq<byte>): int
    requires |request| >= 20
  {
    20 + Uint16(request[2], request[3]) - request[0] % 0x10 * 4
  }

  lemma AcceptedExactly(request: seq<byte>, server: IPv4)
    ensures AcceptedEcho(request, server).Ok? <==> Answerable(request, server)
    ensures AcceptedEcho(request, server).Ok? ==>
              var h, t := request[0] % 0x10 * 4, Uint16(request[2], request[3]);
              var icmp := AcceptedEcho(request, server).value;
              && PutUint16(icmp.identifier) + PutUint16(icmp.sequence) == request[h + 4..h + 8]
              && icmp.payload == request[h + 8..t]
  {
    var ip := ParseIPv4Packet(request);
    if ip.Ok? {
      var h, t := request[0] % 0x10 * 4, Uint16(request[2], request[3]);
      assert ip.value.payload == request[h..t];
      if t - h >= 8 {
        var icmp := request[h..t];
        assert forall i | 0 <= i < t - h :: icmp[i] == request[h + i];
        Uint16Injective(icmp[4], icmp[5]);
        Uint16Injective(icmp[6], icmp[7]);
        assert icmp[8..] == request[h + 8..t];
      }
    }
  }

  /** For any request bytes at all: a reply exists exactly for answerable requests, is never longer
      than the request (so "too large" cannot happen and it fits a frame), goes from the server to
      the client, copies everything after the ICMP checksum, and verifies. */
  lemma ReplyMeaning(request: seq<byte>, server: IP, client: IP)
    requires To4(server).Some? && To4(client).Some?
    ensures var r := EchoReply(request, server, client);
            && (r.Ok? <==> Answerable(request, To4(server).value))
            && r != Err(TooLarge)
            && (r.Ok? ==>
                  && |r.value| == ReplyLength(request)
                  && 28 <= |r.value| <= |request|
                  && |r.value| <= 0xffff
                  && r.value[20] == ICMP_ECHO_REPLY && r.value[21] == 0
                  && r.value[24..] ==
                     request[request[0] % 0x10 * 4 + 4..Uint16(request[2], request[3])]
                  && InternetChecksum(r.value[..20]) == 0
                  && InternetChecksum(r.value[20..]) == 0
                  && ParseIPv4Packet(r.value) ==
                     Ok(IPv4Packet(4, 20, |r.value|, IPV4_PROTOCOL_ICMP, To4(server).value, To4(client).value,
                                   r.value[20..])))
  {
    hide Header, EchoMessage, InternetChecksum;
    var s, c := To4(server).value, To4(client).value;
    AcceptedExactly(request, s);
    var accepted := AcceptedEcho(request, s);
    if accepted.Ok? {
      var echo := accepted.value;
      var h, t := request[0] % 0x10 * 4, Uint16(request[2], request[3]);
      var icmp := EchoMessage(ICMP_ECHO_REPLY, echo.identifier, echo.sequence, echo.payload);
      EchoMessageMeaning(ICMP_ECHO_REPLY, echo.identifier, echo.sequence, echo.payload);
      EchoMessageTail(ICMP_ECHO_REPLY, echo.identifier, echo.sequence, echo.payload);
      assert |icmp| == t - h;
      PacketMeaning(s, c, icmp);
      var r := Header(20 + |icmp|, s, c) + icmp;
      assert To4(s) == Some(s) && To4(c) == Some(c);
      assert EchoReply(request, server, client) == Ok(r);
      assert r[20..] == icmp;
      assert r[24..] == icmp[4..];
      assert request[h + 4..t] == request[h + 4..h + 8] + request[h + 8..t];
    }
  }

  lemma EchoMessageTail(kind: byte, identifier: uint16, sequence: uint16, payload: seq<byte>)
    ensures var m := EchoMessage(kind, identifier, sequence, payload);
            m[0] == kind && m[1] == 0 && m[4..] == PutUint16(identifier) + PutUint16(sequence) + payload
  {
    var blank, m := BlankEcho(kind, identifier, sequence, payload), EchoMessage(kind, identifier, sequence, payload);
    assert m[..2] == blank[..2] && m[4..] == blank[4..];
    assert m[0] == blank[0] && m[1] == blank[1];
  }

  // ---- Round trip ----

  /** A request of this client, answered by this server, is accepted by this client. */
  lemma RoundTrip(virtualIP: IP, clientIP: IP, identifier: uint16, sequence: uint16, payload: seq<byte>)
    requires To4(virtualIP).Some? && To4(clientIP).Some? && |payload| <= 65507
    ensures var request := EchoRequest(clientIP, virtualIP, identifier, sequence, payload);
            && request.Ok?
            && var reply := EchoReply(request.value, virtualIP, clientIP);
               && reply.Ok?
               && |reply.value| == |request.value|
               && ValidateEchoReply(reply.value, virtualIP, clientIP, identifier, sequence, payload) == None
  {
    hide Header, EchoMessage, InternetChecksum;
    var v, c := To4(virtualIP).value, To4(clientIP).value;
    RequestMeaning(clientIP, virtualIP, identifier, sequence, payload);
    var request := EchoRequest(clientIP, virtualIP, identifier, sequence, payload).value;
    EchoMessageMeaning(ICMP_ECHO_REQUEST, identifier, sequence, payload);
    var icmp := EchoMessage(ICMP_ECHO_REPLY, identifier, sequence, payload);
    EchoMessageMeaning(ICMP_ECHO_REPLY, identifier, sequence, payload);
    PacketMeaning(v, c, icmp);
    assert AcceptedEcho(request, v).Ok?;
    assert To4(v) == Some(v) && To4(c) == Some(c);
    assert EchoReply(request, virtualIP, clientIP) == Ok(Header(20 + |icmp|, v, c) + icmp);
    EqualTo4(virtualIP);
    EqualTo4(clientIP);
  }

  lemma EqualTo4(ip: IP)
    requires To4(ip).Some?
    ensures Equal(To4(ip).value, ip)
  {
  }

  // ---- Damage ----

  /** The bytes the client's two checksums cover: the first 20, and the ICMP part up to the total length. */
  predicate Covered(reply: seq<byte>, i: nat)
    requires |reply| >= 20
  {
    i < 20 || reply[0] % 0x10 * 4 <= i < Uint16(reply[2], reply[3])
  }

  /** Change any one byte of any reply the client accepts, and it is rejected exactly if a checksum
      covers that byte: damage to header options, or after the total length, goes unnoticed. */
  lemma DamageRejectedExactly(reply: seq<byte>, damaged: seq<byte>, i: nat,
                              virtualIP: IP, clientIP: IP, identifier: uint16, sequence: uint16, payload: seq<byte>)
    requires ValidateEchoReply(reply, virtualIP, clientIP, identifier, sequence, payload) == None
    requires DiffersOnlyAt(reply, damaged, i)
    ensures ValidateEchoReply(damaged, virtualIP, clientIP, identifier, sequence, payload).Some? <==> Covered(reply, i)
  {
    hide InternetChecksum, ParseICMPPacket, Equal;
    if i < 20 {
      OneByteChangesChecksum(reply[..20], damaged[..20], i);
    } else {
      SameHeader(reply, damaged, i);
      var h, t := reply[0] % 0x10 * 4, Uint16(reply[2], reply[3]);
      if Covered(reply, i) {
        OneByteChangesChecksum(reply[h..t], damaged[h..t], i - h);
      } else {
        assert damaged[h..t] == reply[h..t];
      }
    }
  }

  lemma SameHeader(reply: seq<byte>, damaged: seq<byte>, i: nat)
    requires |reply| >= 20 && 20 <= i && DiffersOnlyAt(reply, damaged, i)
    ensures damaged[..20] == reply[..20] && damaged[12..16] == reply[12..16] && damaged[16..20] == reply[16..20]
    ensures damaged[0] == reply[0] && damaged[2] == reply[2] && damaged[3] == reply[3] && damaged[9] == reply[9]
  {
  }

  /** A byte after the end of any accepted reply is not covered, so the reply stays accepted with any
      byte appended. */
  lemma TrailingByteUnnoticed(reply: seq<byte>, x: byte, virtualIP: IP, clientIP: IP,
                              identifier: uint16, sequence: uint16, payload: seq<byte>)
    requires ValidateEchoReply(reply, virtualIP, clientIP, identifier, sequence, payload) == None
    ensures ValidateEchoReply(reply + [x], virtualIP, clientIP, identifier, sequence, payload) == None
    ensures !Covered(reply + [x], |reply|)
  {
    hide InternetChecksum, ParseICMPPacket, Equal;
    var longer := reply + [x];
    var h, t := reply[0] % 0x10 * 4, Uint16(reply[2], reply[3]);
    assert longer[..20] == reply[..20] && longer[h..t] == reply[h..t];
    assert longer[12..16] == reply[12..16] && longer[16..20] == reply[16..20];
  }

  /** The first 20 bytes of a header with one option word, its checksum computed over those 20 as the
      client does. */
  function OptionHeader(totalLen: uint16, source: IPv4, destination: IPv4): (h: seq<byte>)
    ensures |h| == 20
  {
    var blank := HeaderFields(PutUint16(totalLen), source, destination)[0 := 0x46];
    Patch(blank, 10, InternetChecksum(blank))
  }

  /** An echo reply with header options. */
  function ReplyWithOptions(source: IPv4, destination: IPv4, options: seq<byte>, icmp: seq<byte>): seq<byte>
    requires |options| == 4 && 24 + |icmp| <= 0xffff
  {
    OptionHeader(24 + |icmp|, source, destination) + options + icmp
  }

  lemma OptionHeaderMeaning(totalLen: uint16, source: IPv4, destination: IPv4)
    ensures var h := OptionHeader(totalLen, source, destination);
            && InternetChecksum(h) == 0
            && h[0] == 0x46 && Uint16(h[2], h[3]) == totalLen && h[9] == IPV4_PROTOCOL_ICMP
            && h[12..16] == source && h[16..20] == destination
  {
    var length := PutUint16(totalLen);
    var fields := HeaderFields(length, source, destination);
    var blank := fields[0 := 0x46];
    FieldsAt(length, source, destination);
    SameFields(fields, length, source, destination);
    SelfVerifying(blank, 10);
    PatchKeeps(blank, 10, InternetChecksum(blank));
    hide InternetChecksum, HeaderFields, Patch;
    OptionFields(OptionHeader(totalLen, source, destination), blank);
    assert blank[12..16] == fields[12..16] && blank[16..20] == fields[16..20];
  }

  lemma OptionFields(h: seq<byte>, blank: seq<byte>)
    requires |h| == |blank| == 20 && h[..10] == blank[..10] && h[12..] == blank[12..]
    ensures h[0] == blank[0] && h[2] == blank[2] && h[3] == blank[3] && h[9] == blank[9]
    ensures h[12..16] == blank[12..16] && h[16..20] == blank[16..20]
  {
    assert h[0] == h[..10][0] && h[2] == h[..10][2] && h[3] == h[..10][3] && h[9] == h[..10][9];
    assert h[12..16] == h[12..][..4] && h[16..20] == h[12..][4..];
    assert blank[12..16] == blank[12..][..4] && blank[16..20] == blank[12..][4..];
  }

  /** Whatever the option word, the client accepts, so no damage to it is noticed. */
  lemma OptionsUnnoticed(options: seq<byte>, virtualIP: IP, clientIP: IP,
                         identifier: uint16, sequence: uint16, payload: seq<byte>)
    requires |options| == 4 && To4(virtualIP).Some? && To4(clientIP).Some? && |payload| <= 65503
    ensures var icmp := EchoMessage(ICMP_ECHO_REPLY, identifier, sequence, payload);
            var reply := ReplyWithOptions(To4(virtualIP).value, To4(clientIP).value, options, icmp);
            && ValidateEchoReply(reply, virtualIP, clientIP, identifier, sequence, payload) == None
            && forall i | 20 <= i < 24 :: !Covered(reply, i)
  {
    hide EchoMessage, InternetChecksum;
    var v, c := To4(virtualIP).value, To4(clientIP).value;
    var icmp := EchoMessage(ICMP_ECHO_REPLY, identifier, sequence, payload);
    EchoMessageMeaning(ICMP_ECHO_REPLY, identifier, sequence, payload);
    OptionHeaderMeaning(24 + |icmp|, v, c);
    hide OptionHeader, ParseICMPPacket;
    var h := OptionHeader(24 + |icmp|, v, c);
    OptionParts(h, options, icmp);
    EqualTo4(virtualIP);
    EqualTo4(clientIP);
  }

  lemma OptionParts(h: seq<byte>, options: seq<byte>, icmp: seq<byte>)
    requires |h| == 20 && |options| == 4
    ensures var reply := h + options + icmp;
            && |reply| == 24 + |icmp| && reply[..20] == h && reply[24..24 + |icmp|] == icmp
            && reply[0] == h[0] && reply[2] == h[2] && reply[3] == h[3] && reply[9] == h[9]
            && reply[12..16] == h[12..16] && reply[16..20] == h[16..20]
  {
    var reply := h + options + icmp;
    assert reply[..20] == h;
    assert reply[12..16] == reply[..20][12..16] && reply[16..20] == reply[..20][16..20];
  }

  /** The replies the responder builds have no options and nothing after the total length, so no
      single damaged byte in them goes unnoticed, whatever the client expects. */
  lemma OneByteDamageRejected(request: seq<byte>, server: IP, client: IP, damaged: seq<byte>, i: nat,
                              virtualIP: IP, clientIP: IP, identifier: uint16, sequence: uint16, payload: seq<byte>)
    requires To4(server).Some? && To4(client).Some? && EchoReply(request, server, client).Ok?
    requires DiffersOnlyAt(EchoReply(request, server, client).value, damaged, i)
    ensures ValidateEchoReply(damaged, virtualIP, clientIP, identifier, sequence, payload).Some?
  {
    hide EchoReply, InternetChecksum, ValidateEchoReply, Answerable;
    ReplyMeaning(request, server, client);
    PlainDamageRejected(EchoReply(request, server, client).value, damaged, i,
                        virtualIP, clientIP, identifier, sequence, payload);
  }

  lemma PlainDamageRejected(reply: seq<byte>, damaged: seq<byte>, i: nat,
                            virtualIP: IP, clientIP: IP, identifier: uint16, sequence: uint16, payload: seq<byte>)
    requires |reply| >= 20 && reply[0] % 0x10 == 5 && Uint16(reply[2], reply[3]) == |reply|
    requires InternetChecksum(reply[..20]) == 0 && InternetChecksum(reply[20..]) == 0
    requires DiffersOnlyAt(reply, damaged, i)
    ensures ValidateEchoReply(damaged, virtualIP, clientIP, identifier, sequence, payload).Some?
  {
    hide InternetChecksum, ParseICMPPacket, Equal;
    if i < 20 {
      OneByteChangesChecksum(reply[..20], damaged[..20], i);
    } else {
      SameHeader(reply, damaged, i);
      OneByteChangesChecksum(reply[20..], damaged[20..], i - 20);
      assert damaged[20..|damaged|] == damaged[20..];
    }
  }
}
