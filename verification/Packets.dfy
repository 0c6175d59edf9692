/** IPv4 addresses as Go's net.IP handles them: 4 bytes, or 16 bytes with the IPv4-in-IPv6 prefix. */
module Net {
  import opened Bytes

  type IP = seq<byte>

  type IPv4 = s: seq<byte> | |s| == 4 witness [0, 0, 0, 0]

  const V4_IN_V6_PREFIX: seq<byte> := [0, 0, 0, 0, 0, 0, 0, 0, 0, 0, 0xff, 0xff]

  function To4(ip: IP): Option<IPv4> {
    if |ip| == 4 then Some(ip)
    else if |ip| == 16 && ip[..12] == V4_IN_V6_PREFIX then Some(ip[12..])
    else None
  }

  predicate Equal(a: IP, b: IP) {
    if |a| == |b| then a == b
    else if |a| == 4 && |b| == 16 then b[..12] == V4_IN_V6_PREFIX && a == b[12..]
    else |a| == 16 && |b| == 4 && a[..12] == V4_IN_V6_PREFIX && a[12..] == b
  }
}

/** internal/packet/ipv4.go and internal/packet/icmp.go: parsing and building ICMP echo packets. */
module Packets {
  import opened Bytes
  import opened Checksum
  import opened Net

  const ICMP_ECHO_REPLY: byte := 0
  const ICMP_ECHO_REQUEST: byte := 8
  const IPV4_PROTOCOL_ICMP: byte := 1
  const IPV4_MIN_HEADER: nat := 20
  const IPV4_DEFAULT_TTL: byte := 64

  datatype Endpoint = SourceIP | DestinationIP | VirtualServerIP | ClientIP

  datatype PacketError =
    | Ipv4TooShort
    | UnsupportedVersion(version: nat)
    | BadHeaderLength(length: nat)
    | ShorterThanHeader
    | BadTotalLength(length: nat)
    | ShorterThanTotal
    | UnsupportedProtocol(protocol: byte)
    | IcmpTooShort
    | NotIPv4(which: Endpoint)
    | WrongDestination
    | NotEchoRequest(kind: byte)
    | TooLarge

  datatype IPv4Packet = IPv4Packet(
    version: nat, ihl: nat, totalLength: nat, protocol: byte,
    source: IP, destination: IP, payload: seq<byte>)

  datatype ICMPPacket = ICMPPacket(
    kind: byte, code: byte, checksum: uint16, identifier: uint16, sequence: uint16, payload: seq<byte>)

  function ParseIPv4Packet(data: seq<byte>): Result<IPv4Packet, PacketError> {
    if |data| < IPV4_MIN_HEADER then Err(Ipv4TooShort) else
    var version := data[0] / 0x10;
    if version != 4 then Err(UnsupportedVersion(version)) else
    var headerLen := data[0] % 0x10 * 4;
    if headerLen < IPV4_MIN_HEADER then Err(BadHeaderLength(headerLen)) else
    if |data| < headerLen then Err(ShorterThanHeader) else
    var totalLen := Uint16(data[2], data[3]);
    if totalLen < headerLen then Err(BadTotalLength(totalLen)) else
    if totalLen > |data| then Err(ShorterThanTotal) else
    if data[9] != IPV4_PROTOCOL_ICMP then Err(UnsupportedProtocol(data[9])) else
    Ok(IPv4Packet(version, headerLen, totalLen, data[9],
                  data[12..16], data[16..20], data[headerLen..totalLen]))
  }

  function ParseICMPPacket(data: seq<byte>): Result<ICMPPacket, PacketError> {
    if |data| < 8 then Err(IcmpTooShort) else
    Ok(ICMPPacket(data[0], data[1], Uint16(data[2], data[3]),
                  Uint16(data[4], data[5]), Uint16(data[6], data[7]), data[8..]))
  }

  // ---- What the builders put on the wire ----

  function BlankEcho(kind: byte, identifier: uint16, sequence: uint16, payload: seq<byte>): (s: seq<byte>)
    ensures |s| == 8 + |payload|
  {
    var id, number := PutUint16(identifier), PutUint16(sequence);
    [kind, 0, 0, 0, id[0], id[1], number[0], number[1]] + payload
  }

  function EchoMessage(kind: byte, identifier: uint16, sequence: uint16, payload: seq<byte>): (s: seq<byte>)
    ensures |s| == 8 + |payload|
  {
    var blank := BlankEcho(kind, identifier, sequence, payload);
    Patch(blank, 2, InternetChecksum(blank))
  }

  /** The header of an ICMP packet whose checksum field is still zero. */
  function HeaderFields(length: seq<byte>, source: IPv4, destination: IPv4): (s: seq<byte>)
    requires |length| == 2
    ensures |s| == IPV4_MIN_HEADER
  {
    ([0x45, 0] + length + [0, 0, 0, 0]) + ([IPV4_DEFAULT_TTL, IPV4_PROTOCOL_ICMP, 0, 0] + source + destination)
  }

  function Header(totalLen: uint16, source: IPv4, destination: IPv4): (s: seq<byte>)
    ensures |s| == IPV4_MIN_HEADER
  {
    var blank := HeaderFields(PutUint16(totalLen), source, destination);
    Patch(blank, 10, InternetChecksum(blank))
  }

  function IPv4ICMPPacket(source: IP, destination: IP, icmp: seq<byte>): Result<seq<byte>, PacketError> {
    if To4(source).None? then Err(NotIPv4(SourceIP))
    else if To4(destination).None? then Err(NotIPv4(DestinationIP))
    else if IPV4_MIN_HEADER + |icmp| > 0xffff then Err(TooLarge)
    else Ok(Header(IPV4_MIN_HEADER + |icmp|, To4(source).value, To4(destination).value) + icmp)
  }

  function EchoRequest(source: IP, destination: IP, identifier: uint16, sequence: uint16, payload: seq<byte>)
    : Result<seq<byte>, PacketError>
  {
    IPv4ICMPPacket(source, destination, EchoMessage(ICMP_ECHO_REQUEST, identifier, sequence, payload))
  }

  /** The echo request inside `request` that the responder at `server` answers. */
  function AcceptedEcho(request: seq<byte>, server: IPv4): Result<ICMPPacket, PacketError> {
    match ParseIPv4Packet(request)
    case Err(e) => Err(e)
    case Ok(ip) =>
      if !Equal(ip.destination, server) then Err(WrongDestination) else
      match ParseICMPPacket(ip.payload)
      case Err(e) => Err(e)
      case Ok(icmp) => if icmp.kind != ICMP_ECHO_REQUEST then Err(NotEchoRequest(icmp.kind)) else Ok(icmp)
  }

  function EchoReply(request: seq<byte>, server: IP, client: IP): Result<seq<byte>, PacketError> {
    if To4(server).None? then Err(NotIPv4(VirtualServerIP)) else
    if To4(client).None? then Err(NotIPv4(ClientIP)) else
    match AcceptedEcho(request, To4(server).value)
    case Err(e) => Err(e)
    case Ok(echo) =>
      IPv4ICMPPacket(To4(server).value, To4(client).value,
                     EchoMessage(ICMP_ECHO_REPLY, echo.identifier, echo.sequence, echo.payload))
  }

  // ---- The builders themselves, filling their buffers in place ----

  method BuildEchoMessage(kind: byte, identifier: uint16, sequence: uint16, payload: seq<byte>)
    returns (icmp: array<byte>)
    ensures fresh(icmp) && icmp[..] == EchoMessage(kind, identifier, sequence, payload)
  {
    icmp := new byte[8 + |payload|](_ => 0);
    icmp[0] := kind;
    icmp[1] := 0;
    CopyInto(icmp, 4, PutUint16(identifier));
    CopyInto(icmp, 6, PutUint16(sequence));
    CopyInto(icmp, 8, payload);
    ghost var blank := BlankEcho(kind, identifier, sequence, payload);
    Filled(icmp, kind, identifier, sequence, payload);
    hide BlankEcho, InternetChecksum, Patch;
    var checksum := Checksum.Checksum(icmp[..]);
    CopyInto(icmp, 2, PutUint16(checksum));
    Patched(icmp, icmp.Length, blank, 2, checksum);
    assert icmp[..] == icmp[..icmp.Length];
  }

  lemma Filled(icmp: array<byte>, kind: byte, identifier: uint16, sequence: uint16, payload: seq<byte>)
    requires icmp.Length == 8 + |payload| && icmp[0] == kind && icmp[1] == icmp[2] == icmp[3] == 0
    requires forall i | 4 <= i < 6 :: icmp[i] == PutUint16(identifier)[i - 4]
    requires forall i | 6 <= i < 8 :: icmp[i] == PutUint16(sequence)[i - 6]
    requires forall i | 8 <= i < 8 + |payload| :: icmp[i] == payload[i - 8]
    ensures icmp[..] == BlankEcho(kind, identifier, sequence, payload)
  {
    var blank := BlankEcho(kind, identifier, sequence, payload);
    assert icmp[..8] == blank[..8];
    assert icmp[8..] == payload == blank[8..];
    assert icmp[..] == icmp[..8] + icmp[8..] == blank;
  }

  method BuildIPv4ICMPPacket(source: IP, destination: IP, icmp: seq<byte>)
    returns (r: Result<seq<byte>, PacketError>)
    ensures r == IPv4ICMPPacket(source, destination, icmp)
  {
    var source4, destination4 := To4(source), To4(destination);
    if source4.None? {
      return Err(NotIPv4(SourceIP));
    }
    if destination4.None? {
      return Err(NotIPv4(DestinationIP));
    }
    var totalLen := IPV4_MIN_HEADER + |icmp|;
    if totalLen > 0xffff {
      return Err(TooLarge);
    }
    var packet := FillPacket(totalLen, source4.value, destination4.value, icmp);
    r := Ok(packet);
  }

  method FillPacket(totalLen: uint16, source: IPv4, destination: IPv4, icmp: seq<byte>) returns (packet: seq<byte>)
    requires totalLen == IPV4_MIN_HEADER + |icmp|
    ensures packet == Header(totalLen, source, destination) + icmp
  {
    hide Header;
    var reply := new byte[totalLen](_ => 0);
    FillHeader(reply, totalLen, source, destination);
    ghost var header := reply[..IPV4_MIN_HEADER];
    CopyInto(reply, IPV4_MIN_HEADER, icmp);
    packet := reply[..];
    HeaderAndBody(reply, header, icmp);
  }

  lemma HeaderAndBody(reply: array<byte>, header: seq<byte>, icmp: seq<byte>)
    requires |header| == IPV4_MIN_HEADER && reply.Length == IPV4_MIN_HEADER + |icmp|
    requires forall i | 0 <= i < IPV4_MIN_HEADER :: reply[i] == header[i]
    requires forall i | IPV4_MIN_HEADER <= i < IPV4_MIN_HEADER + |icmp| :: reply[i] == icmp[i - IPV4_MIN_HEADER]
    ensures reply[..] == header + icmp
  {
  }

  method FillHeader(reply: array<byte>, totalLen: uint16, source: IPv4, destination: IPv4)
    requires reply.Length >= IPV4_MIN_HEADER && forall i | 0 <= i < reply.Length :: reply[i] == 0
    modifies reply
    ensures reply[..IPV4_MIN_HEADER] == Header(totalLen, source, destination)
  {
    hide HeaderFields, InternetChecksum, Patch;
    FillFields(reply, PutUint16(totalLen), source, destination);
    ghost var blank := reply[..IPV4_MIN_HEADER];
    var checksum := Checksum.Checksum(reply[..IPV4_MIN_HEADER]);
    CopyInto(reply, 10, PutUint16(checksum));
    Patched(reply, IPV4_MIN_HEADER, blank, 10, checksum);
  }

  /** Overwriting two bytes of the first n is patching them. */
  lemma Patched(a: array<byte>, n: nat, blank: seq<byte>, k: nat, v: uint16)
    requires k + 2 <= n == |blank| <= a.Length
    requires forall i | k <= i < k + 2 :: a[i] == PutUint16(v)[i - k]
    requires forall i | 0 <= i < k || k + 2 <= i < n :: a[i] == blank[i]
    ensures a[..n] == Patch(blank, k, v)
  {
  }

  method FillFields(reply: array<byte>, length: seq<byte>, source: IPv4, destination: IPv4)
    requires reply.Length >= IPV4_MIN_HEADER && forall i | 0 <= i < reply.Length :: reply[i] == 0
    requires |length| == 2
    modifies reply
    ensures reply[..IPV4_MIN_HEADER] == HeaderFields(length, source, destination)
  {
    FillFirstHalf(reply, length);
    ghost var first := reply[..8];
    reply[8], reply[9] := IPV4_DEFAULT_TTL, IPV4_PROTOCOL_ICMP;
    CopyInto(reply, 12, source);
    CopyInto(reply, 16, destination);
    assert reply[..8] == first;
    assert reply[8..IPV4_MIN_HEADER] == [IPV4_DEFAULT_TTL, IPV4_PROTOCOL_ICMP, 0, 0] + source + destination;
    assert reply[..IPV4_MIN_HEADER] == reply[..8] + reply[8..IPV4_MIN_HEADER];
  }

  method FillFirstHalf(reply: array<byte>, length: seq<byte>)
    requires reply.Length >= 8 && |length| == 2
    modifies reply
    ensures reply[..8] == [0x45, 0] + length + [0, 0, 0, 0]
    ensures forall i | 8 <= i < reply.Length :: reply[i] == old(reply[i])
  {
    reply[0], reply[1] := 0x45, 0;
    CopyInto(reply, 2, length);
    reply[4], reply[5], reply[6], reply[7] := 0, 0, 0, 0;
  }

  method BuildICMPEchoRequest(source: IP, destination: IP, identifier: uint16, sequence: uint16, payload: seq<byte>)
    returns (r: Result<seq<byte>, PacketError>)
    ensures r == EchoRequest(source, destination, identifier, sequence, payload)
  {
    var icmp := BuildEchoMessage(ICMP_ECHO_REQUEST, identifier, sequence, payload);
    r := BuildIPv4ICMPPacket(source, destination, icmp[..]);
  }

  method BuildICMPEchoReply(request: seq<byte>, server: IP, client: IP) returns (r: Result<seq<byte>, PacketError>)
    ensures r == EchoReply(request, server, client)
  {
    var server4, client4 := To4(server), To4(client);
    if server4.None? {
      return Err(NotIPv4(VirtualServerIP));
    }
    if client4.None? {
      return Err(NotIPv4(ClientIP));
    }
    var ip := ParseIPv4Packet(request);
    if ip.Err? {
      return Err(ip.error);
    }
    if !Equal(ip.value.destination, server4.value) {
      return Err(WrongDestination);
    }
    var echo := ParseICMPPacket(ip.value.payload);
    if echo.Err? {
      return Err(echo.error);
    }
    if echo.value.kind != ICMP_ECHO_REQUEST {
      return Err(NotEchoRequest(echo.value.kind));
    }
    var icmp := BuildEchoMessage(ICMP_ECHO_REPLY, echo.value.identifier, echo.value.sequence, echo.value.payload);
    r := BuildIPv4ICMPPacket(server4.value, client4.value, icmp[..]);
  }
}
