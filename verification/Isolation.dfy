/** Which packets cross between tunnel clients and the kernel
    (internal/tunnelapp/tunnelapp.go:652-703, 1009-1051, 1140-1187;
    internal/tunnelapp/registry.go:305-318).  The kernel's own part is to pass packets on
    unchanged, so a packet admitted from one client may come back as an outbound packet. */
module Isolation {
  import opened Prelude
  import opened Ipv4
  import opened PeerIndex

  datatype Net = Net(pool: Prefix, gateway: TunIP)

  function Word(p: Bytes, at: nat): (r: int)
    requires at + 4 <= |p|
    ensures IsIP(r)
  {
    var b0: int, b1: int, b2: int, b3: int := p[at], p[at + 1], p[at + 2], p[at + 3];
    ((b0 * 256 + b1) * 256 + b2) * 256 + b3
  }

  /** An IPv4 header is readable: `len(pkt) >= 20 && pkt[0]>>4 == 4`. */
  predicate IsIpv4(p: Bytes) {
    |p| >= 20 && p[0] / 16 == 4
  }

  function SrcIP4(p: Bytes): Option<TunIP> {
    if IsIpv4(p) then Some(TunIP(Word(p, 12))) else None
  }

  function DstIP4(p: Bytes): Option<TunIP> {
    if IsIpv4(p) then Some(TunIP(Word(p, 16))) else None
  }

  /** TCP with SYN set and ACK clear, as far as the bytes reach. */
  predicate IsTcpConnect(p: Bytes) {
    && IsIpv4(p) && p[9] == 6
    && var ihl := (p[0] as int) % 16 * 4;
       ihl >= 20 && |p| >= ihl + 14 && (p[ihl + 13] / 2) % 2 == 1 && (p[ihl + 13] / 16) % 2 == 0
  }

  predicate Internal(net: Net, a: TunIP) {
    Contains(net.pool, a.v)
  }

  predicate AllowReturn(net: Net, p: Bytes, dst: TunIP) {
    dst == net.gateway && !IsTcpConnect(p)
  }

  datatype Inbound = NotIpv4 | Spoofed | CrossTunnel | Admitted

  /** `deliverInbound` after decryption: is the packet written to the TUN device? */
  function Admit(net: Net, from: Peer, p: Bytes): Inbound {
    if SrcIP4(p).None? then NotIpv4
    else if SrcIP4(p).value != from.tunIP then Spoofed
    else
      var dst := DstIP4(p);
      if dst.Some? && Internal(net, dst.value) && !AllowReturn(net, p, dst.value) then CrossTunnel
      else Admitted
  }

  datatype Outbound = NoAddress | NoRoute | FromInside | TooLong | SealTo(peer: Peer)

  /** `forwardOutbound`: which session, if any, a packet read from the TUN device is sealed for. */
  function Route(net: Net, ix: Index, p: Bytes): Outbound {
    var dst := DstIP4(p);
    if dst.None? then NoAddress
    else if dst.value !in ix.byTunIP then NoRoute
    else
      var ps := ix.byTunIP[dst.value];
      var src := SrcIP4(p);
      if src.Some? && Internal(net, src.value) && src.value != net.gateway then FromInside
      else if |p| > ps.mtu then TooLong
      else SealTo(ps)
  }

  /** What the handshake demands of a session's address. */
  predicate GoodAddress(net: Net, a: TunIP) {
    Contains(net.pool, a.v) && a != net.gateway
  }

  /** What is admitted: exactly IPv4 packets from the session's own address to an address outside
      the tunnel, or to the gateway when the packet does not open a TCP connection. */
  lemma AdmittedIff(net: Net, from: Peer, p: Bytes)
    ensures Admit(net, from, p).Admitted? <==>
            && IsIpv4(p) && TunIP(Word(p, 12)) == from.tunIP
            && (Contains(net.pool, Word(p, 16)) ==> Word(p, 16) == net.gateway.v && !IsTcpConnect(p))
  {
    if IsIpv4(p) {
      assert TunIP(Word(p, 16)) == net.gateway <==> Word(p, 16) == net.gateway.v;
    }
  }

  /** No packet admitted from any client is ever sealed for a client, whatever the session table
      holds by the time the kernel hands it back. */
  lemma NoClientReachesClient(net: Net, from: Peer, p: Bytes, ix: Index)
    requires GoodAddress(net, from.tunIP) && Admit(net, from, p).Admitted?
    ensures !Route(net, ix, p).SealTo?
  {
    assert SrcIP4(p) == Some(from.tunIP);
  }

  /** The reply to an admitted packet, coming from outside the tunnel or from the gateway, goes
      back to the session that sent it. */
  lemma ReplyReturns(net: Net, from: Peer, p: Bytes, reply: Bytes, ix: Index)
    requires Admit(net, from, p).Admitted?
    requires from.tunIP in ix.byTunIP && ix.byTunIP[from.tunIP] == from
    requires IsIpv4(reply) && Word(reply, 16) == Word(p, 12)
    ensures Route(net, ix, reply) == SealTo(from) <==>
            && |reply| <= from.mtu
            && (Contains(net.pool, Word(reply, 12)) ==> Word(reply, 12) == net.gateway.v)
  {
    assert DstIP4(reply) == SrcIP4(p) == Some(from.tunIP);
    assert TunIP(Word(reply, 12)) == net.gateway <==> Word(reply, 12) == net.gateway.v;
  }

  // ---------------------------------------------------------------- the packets themselves

  /** An IPv4 packet (RFC 791, section 3.1): header length in words, the eight bytes before and the two
      behind the protocol, addresses, options, and what it carries. */
  datatype Addr4 = Addr4(b0: Byte, b1: Byte, b2: Byte, b3: Byte)
  datatype Packet4 = Packet4(words: nat, lead: Bytes, check: Bytes, src: Addr4, dst: Addr4, options: Bytes, body: Body)

  /** A TCP segment (RFC 9293, section 3.1), or the data of any other protocol. */
  datatype Body =
    | Tcp(sport: Bytes, dport: Bytes, seqno: Bytes, ackno: Bytes, offset: Byte, flags: Flags, rest: Bytes)
    | Data(proto: Byte, data: Bytes)
  datatype Flags = Flags(cwr: bool, ece: bool, urg: bool, ack: bool, psh: bool, rst: bool, syn: bool, fin: bool)

  function AddrNum(a: Addr4): int { AddrOf(a.b0, a.b1, a.b2, a.b3) }

  /** Lengths as the headers have them; data under the number of TCP is too short to hold the flags. */
  predicate Proper(m: Packet4) {
    && 5 <= m.words <= 15 && |m.lead| == 8 && |m.check| == 2 && |m.options| == 4 * (m.words - 5)
    && if m.body.Tcp? then |m.body.sport| == |m.body.dport| == 2 && |m.body.seqno| == |m.body.ackno| == 4
       else m.body.proto == 6 ==> |m.body.data| < 14
  }

  function Bit(b: bool): (r: nat)
    ensures r < 2
  {
    if b then 1 else 0
  }

  function FlagByte(f: Flags): (r: Byte) {
    128 * Bit(f.cwr) + 64 * Bit(f.ece) + 32 * Bit(f.urg) + 16 * Bit(f.ack) + 8 * Bit(f.psh) + 4 * Bit(f.rst) + 2 * Bit(f.syn) + Bit(f.fin)
  }

  function EncodeBody(b: Body): Bytes {
    if b.Tcp? then b.sport + b.dport + b.seqno + b.ackno + [b.offset, FlagByte(b.flags)] + b.rest else b.data
  }

  function EncodeHeader(m: Packet4): Bytes
    requires Proper(m)
  {
    [64 + m.words] + m.lead + [if m.body.Tcp? then 6 else m.body.proto] + m.check
    + [m.src.b0, m.src.b1, m.src.b2, m.src.b3, m.dst.b0, m.dst.b1, m.dst.b2, m.dst.b3] + m.options
  }

  function Encode(m: Packet4): Bytes
    requires Proper(m)
  {
    EncodeHeader(m) + EncodeBody(m.body)
  }

  /** It opens a connection: TCP with SYN and without ACK. */
  predicate Opens(m: Packet4) { m.body.Tcp? && m.body.flags.syn && !m.body.flags.ack }

  lemma HeaderReads(m: Packet4)
    requires Proper(m)
    ensures var p := EncodeHeader(m);
            && |p| == 4 * m.words && p[0] == 64 + m.words && p[9] == (if m.body.Tcp? then 6 else m.body.proto)
            && p[12] == m.src.b0 && p[13] == m.src.b1 && p[14] == m.src.b2 && p[15] == m.src.b3
            && p[16] == m.dst.b0 && p[17] == m.dst.b1 && p[18] == m.dst.b2 && p[19] == m.dst.b3
  {
  }

  lemma BodyReads(b: Body)
    requires b.Tcp? && |b.sport| == |b.dport| == 2 && |b.seqno| == |b.ackno| == 4
    ensures |EncodeBody(b)| >= 14 && EncodeBody(b)[13] == FlagByte(b.flags)
  {
  }

  lemma FlagReads(f: Flags)
    ensures ((FlagByte(f) / 2) % 2 == 1 <==> f.syn) && ((FlagByte(f) / 16) % 2 == 1 <==> f.ack)
  {
    BitsRead(Bit(f.cwr), Bit(f.ece), Bit(f.urg), Bit(f.ack), Bit(f.psh), Bit(f.rst), Bit(f.syn), Bit(f.fin));
  }

  lemma BitsRead(c: nat, e: nat, u: nat, k: nat, p: nat, r: nat, s: nat, f: nat)
    requires c < 2 && e < 2 && u < 2 && k < 2 && p < 2 && r < 2 && s < 2 && f < 2
    ensures var x := 128 * c + 64 * e + 32 * u + 16 * k + 8 * p + 4 * r + 2 * s + f; (x / 2) % 2 == s && (x / 16) % 2 == k
  {
    var d := 8 * c + 4 * e + 2 * u + k;
    HalfOf(4 * d + 2 * p + r, s);
    HalfOf(8 * d + 4 * p + 2 * r + s, f);
    HalfOf(4 * c + 2 * e + u, k);
    Sixteenth(d, 8 * p + 4 * r + 2 * s + f);
  }

  lemma Sixteenth(x: int, r: int)
    requires 0 <= r < 16
    ensures (16 * x + r) / 16 == x
  {
  }

  /** What the code reads from the bytes is what the packet says. */
  lemma EncodedReads(m: Packet4)
    requires Proper(m)
    ensures var p := Encode(m);
            && IsIpv4(p) && Word(p, 12) == AddrNum(m.src) && Word(p, 16) == AddrNum(m.dst)
            && (IsTcpConnect(p) <==> Opens(m))
  {
    var p, h := Encode(m), EncodeHeader(m);
    HeaderReads(m);
    assert forall i | 0 <= i < 20 :: p[i] == h[i];
    if m.body.Tcp? {
      BodyReads(m.body);
      FlagReads(m.body.flags);
      assert p[4 * m.words + 13] == EncodeBody(m.body)[13];
    }
  }

  /** The filter on every packet: from an address other than the session's own it is spoofed; to an
      address inside the tunnel it is refused, except to the gateway if it opens no TCP connection; all
      else gets through. */
  lemma AdmitEncoded(net: Net, from: Peer, m: Packet4)
    requires Proper(m)
    ensures Admit(net, from, Encode(m)) ==
            if AddrNum(m.src) != from.tunIP.v then Spoofed
            else if Contains(net.pool, AddrNum(m.dst))
                    && (AddrNum(m.dst) != net.gateway.v || (m.body.Tcp? && m.body.flags.syn && !m.body.flags.ack)) then CrossTunnel
            else Admitted
  {
    EncodedReads(m);
  }

  /** And outbound: it is sealed for the session at its destination, unless it comes from inside the
      tunnel and not from the gateway, or is longer than that session takes. */
  lemma RouteEncoded(net: Net, ix: Index, m: Packet4)
    requires Proper(m)
    ensures Route(net, ix, Encode(m)) ==
            if TunIP(AddrNum(m.dst)) !in ix.byTunIP then NoRoute
            else if Contains(net.pool, AddrNum(m.src)) && AddrNum(m.src) != net.gateway.v then FromInside
            else if 4 * m.words + |EncodeBody(m.body)| > ix.byTunIP[TunIP(AddrNum(m.dst))].mtu then TooLong
            else SealTo(ix.byTunIP[TunIP(AddrNum(m.dst))])
  {
    EncodedReads(m);
    HeaderReads(m);
  }

  /** What is no IPv4 packet at all is neither admitted nor routed. */
  lemma OtherBytes(net: Net, from: Peer, ix: Index, p: Bytes)
    requires |p| < 20 || !(64 <= p[0] < 80)
    ensures Admit(net, from, p) == NotIpv4 && Route(net, ix, p) == NoAddress
  {
  }
}
