/** The CIDR filter on forwarded packets (internal/quictransport/packet_policy.go). */
module Policy {
  import opened Bytes
  import opened Framing
  import opened Net
  import opened Numbers
  import Packets

  /** A parsed IPv4 network; its address bytes are already masked. */
  datatype CIDR = CIDR(network: IPv4, prefixLength: nat)

  predicate ValidCIDR(c: CIDR) {
    c.prefixLength <= 32 && Uint32(c.network) % Pow2(32 - c.prefixLength) == 0
  }

  type PacketPolicy = p: Option<CIDR> | p.Some? ==> ValidCIDR(p.value) witness None

  /** IPNet.Contains: the address under the mask is the network. */
  predicate Contains(c: CIDR, ip: IPv4)
    requires ValidCIDR(c)
  {
    Uint32(ip) / Pow2(32 - c.prefixLength) == Uint32(c.network) / Pow2(32 - c.prefixLength)
  }

  function IPv4Endpoints(raw: seq<byte>): Option<(IPv4, IPv4)> {
    if |raw| < 20 then None else
    if raw[0] / 0x10 != 4 then None else
    var headerLen := raw[0] % 0x10 * 4;
    if headerLen < 20 || |raw| < headerLen then None else
    var totalLen := Uint16(raw[2], raw[3]);
    if totalLen < headerLen || totalLen > |raw| then None else
    Some(([raw[12], raw[13], raw[14], raw[15]], [raw[16], raw[17], raw[18], raw[19]]))
  }

  predicate Allow(policy: PacketPolicy, raw: seq<byte>) {
    policy.None? ||
    match IPv4Endpoints(raw)
    case None => false
    case Some((source, destination)) => Contains(policy.value, source) && Contains(policy.value, destination)
  }

  function Allowed(policy: PacketPolicy, packets: seq<Payload>): seq<Payload> {
    if packets == [] then []
    else
      var last := packets[|packets| - 1];
      Allowed(policy, packets[..|packets| - 1]) + if Allow(policy, last) then [last] else []
  }

  /** An address is in the network exactly if it lies in the block of 2^(32 - prefix) addresses
      that starts at the network address. */
  lemma ContainsIsRange(c: CIDR, ip: IPv4)
    requires ValidCIDR(c)
    ensures Contains(c, ip)
            <==> Uint32(c.network) <= Uint32(ip) < Uint32(c.network) + Pow2(32 - c.prefixLength)
  {
    SameBlock(Uint32(ip), Uint32(c.network), Pow2(32 - c.prefixLength));
  }

  lemma SameBlock(a: int, base: int, size: int)
    requires size > 0 && base % size == 0
    ensures a / size == base / size <==> base <= a < base + size
  {
    var q, k := a / size, base / size;
    assert a == q * size + a % size && base == k * size;
    if q < k {
      MultiplesOrdered(q + 1, k, size);
    } else if q > k {
      MultiplesOrdered(k + 1, q, size);
    }
  }

  lemma MultiplesOrdered(x: int, y: int, size: int)
    requires x <= y && size > 0
    ensures x * size <= y * size
  {
  }

  /** What the policy admits, read off the bytes: with a network given, exactly the well-formed IPv4
      packets of which both the source and the destination lie in its block of addresses. */
  lemma AllowExactly(c: CIDR, raw: seq<byte>)
    requires ValidCIDR(c)
    ensures Allow(None, raw)
    ensures Allow(Some(c), raw)
            <==> && |raw| >= 20
                 && raw[0] / 0x10 == 4
                 && 20 <= raw[0] % 0x10 * 4 <= Uint16(raw[2], raw[3]) <= |raw|
                 && var first, size := Uint32(c.network), Pow2(32 - c.prefixLength);
                    && first <= Uint32(raw[12..16]) < first + size
                    && first <= Uint32(raw[16..20]) < first + size
  {
    hide Contains, Pow2;
    var endpoints := IPv4Endpoints(raw);
    if endpoints.Some? {
      var (source, destination) := endpoints.value;
      assert raw[12..16] == source && raw[16..20] == destination;
      ContainsIsRange(c, source);
      ContainsIsRange(c, destination);
    }
  }

  /** The filter keeps every admitted packet as often as it occurs, and nothing else. */
  lemma {:induction false} AllowedCounts(policy: PacketPolicy, packets: seq<Payload>, p: Payload)
    ensures multiset(Allowed(policy, packets))[p] == if Allow(policy, p) then multiset(packets)[p] else 0
  {
    hide Allow;
    if packets != [] {
      var front, last := packets[..|packets| - 1], packets[|packets| - 1];
      AllowedCounts(policy, front, p);
      assert packets == front + [last];
    }
  }

  /** It keeps the order: what it makes of a prefix comes first. */
  lemma {:induction false} AllowedPrefix(policy: PacketPolicy, packets: seq<Payload>, k: nat)
    requires k <= |packets|
    ensures Allowed(policy, packets[..k]) <= Allowed(policy, packets)
  {
    hide Allow;
    if k < |packets| {
      var front := packets[..|packets| - 1];
      AllowedPrefix(policy, front, k);
      assert front[..k] == packets[..k];
    } else {
      assert packets[..k] == packets;
    }
  }

  /** The policy's own header check accepts exactly the packets the ICMP parser accepts up to its
      protocol check, and reads the same addresses. */
  lemma EndpointsAgreeWithParser(raw: seq<byte>)
    ensures Packets.ParseIPv4Packet(raw).Ok? <==> IPv4Endpoints(raw).Some? && raw[9] == Packets.IPV4_PROTOCOL_ICMP
    ensures Packets.ParseIPv4Packet(raw).Ok? ==>
              var ip := Packets.ParseIPv4Packet(raw).value;
              IPv4Endpoints(raw).value == (ip.source, ip.destination)
  {
    if |raw| >= 20 {
      assert raw[12..16] == [raw[12], raw[13], raw[14], raw[15]];
      assert raw[16..20] == [raw[16], raw[17], raw[18], raw[19]];
    }
  }
}
