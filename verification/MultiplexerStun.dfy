/** Packets as bytes: the STUN parser in front of the multiplexer
    (internal/nethernet/multiplexer.go:162-207, 222-267). */
module MuxStun {
  import opened Prelude
  import opened MuxSpec
  import Stun

  /** The bytes as text, one character a byte. */
  function Text(b: Bytes): string {
    seq(|b|, i requires 0 <= i < |b| => b[i] as char)
  }

  /** The session a packet names: only STUN-like packets are parsed, and an empty name is none. */
  function NameIn(p: Bytes): Option<Ufrag> {
    if |p| >= Stun.HEADER && (p[0] == 0 || p[0] == 1) && Stun.Extract(p) != [] then Some(Ufrag(Text(Stun.Extract(p)))) else None
  }

  function Arrive(w: World, a: Addr, p: Bytes, now: int, bindOk: bool, sentOk: bool): World {
    Next(w, Packet(a, |p|, NameIn(p), now, bindOk, sentOk))
  }

  /** `u` is registered and no packet has named it yet. */
  predicate Waiting(w: World, u: Ufrag) {
    Known(w, u) && !w.objs[w.sessions[u]].learned
  }

  lemma EncodedHead(kind: nat, txid: Bytes, attrs: seq<Stun.Attr>)
    requires kind < 0x200 && |txid| == 12
    requires forall i | 0 <= i < |attrs| :: Stun.Encodable(attrs[i])
    requires |Stun.EncodeAll(attrs)| < 0x1_0000
    ensures var p := Stun.Encode(kind, |Stun.EncodeAll(attrs)|, txid, attrs);
            |p| >= Stun.HEADER && (p[0] == 0 || p[0] == 1)
  {
    var p := Stun.Encode(kind, |Stun.EncodeAll(attrs)|, txid, attrs);
    assert p[0] == kind / 256;
  }

  /** From bytes to the registry: a binding request encoded for a waiting session, whatever attributes
      stand around its username, opens exactly that session at the sender's address. */
  lemma RequestOpensSession(w: World, u: Ufrag, a: Addr, kind: nat, txid: Bytes, before: seq<Stun.Attr>, server: Bytes,
                            client: Bytes, pad: Bytes, after: seq<Stun.Attr>, now: int, bindOk: bool, sentOk: bool)
    requires Inv(w) && Conserved(w) && Waiting(w, u) && a !in w.addrMap
    requires u.text == Text(server) && server != [] && Stun.COLON !in server && kind < 0x200 && |txid| == 12
    requires var attrs := before + [Stun.Attr(Stun.USERNAME, server + [Stun.COLON] + client, pad)] + after;
             && (forall i | 0 <= i < |attrs| :: Stun.Encodable(attrs[i]))
             && |Stun.EncodeAll(attrs)| < 0x1_0000
    requires forall i | 0 <= i < |before| :: before[i].kind != Stun.USERNAME
    ensures var attrs := before + [Stun.Attr(Stun.USERNAME, server + [Stun.COLON] + client, pad)] + after;
            var w' := Arrive(w, a, Stun.Encode(kind, |Stun.EncodeAll(attrs)|, txid, attrs), now, bindOk, sentOk);
            Inv(w') && Conserved(w') && At(w', u, a) && a in w'.table && Open(w'.events, u) == Some(a) && w'.total == w.total + 1
  {
    var attrs := before + [Stun.Attr(Stun.USERNAME, server + [Stun.COLON] + client, pad)] + after;
    var p := Stun.Encode(kind, |Stun.EncodeAll(attrs)|, txid, attrs);
    Stun.RequestNamesSession(kind, txid, before, server, client, pad, after);
    EncodedHead(kind, txid, attrs);
    assert NameIn(p) == Some(u);
    NamedOpens(w, u, a, p, now, bindOk, sentOk);
  }

  lemma NamedOpens(w: World, u: Ufrag, a: Addr, p: Bytes, now: int, bindOk: bool, sentOk: bool)
    requires Inv(w) && Conserved(w) && Waiting(w, u) && a !in w.addrMap && NameIn(p) == Some(u)
    ensures var w' := Arrive(w, a, p, now, bindOk, sentOk);
            Inv(w') && Conserved(w') && At(w', u, a) && a in w'.table && Open(w'.events, u) == Some(a) && w'.total == w.total + 1
  {
    DeliverKeeps(w, Packet(a, |p|, NameIn(p), now, bindOk, sentOk));
    var w' := Arrive(w, a, p, now, bindOk, sentOk);
    assert At(w', u, a);
    assert SessOk(w', u);
  }

  /** And no other bytes do: whatever arrives, a session is open at an address afterwards only if it was
      before, or the packet came from that address, then unknown, and names the waiting session. */
  lemma OnlyItsNameOpens(w: World, a: Addr, p: Bytes, now: int, bindOk: bool, sentOk: bool, v: Ufrag, b: Addr)
    requires Inv(w) && At(Arrive(w, a, p, now, bindOk, sentOk), v, b)
    ensures At(w, v, b) || (b == a && a !in w.addrMap && Waiting(w, v) && NameIn(p) == Some(v)
                            && |p| >= 20 && (p[0] == 0 || p[0] == 1) && Stun.Extract(p) != [])
  {
    assert AddrOk(w, a) && SessOk(w, v);
    if NameIn(p).Some? { assert SessOk(w, NameIn(p).value); }
  }
}
