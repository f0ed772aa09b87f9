/** The STUN username parser (internal/nethernet/multiplexer.go:222-267), against messages built as
    RFC 5389, sections 6 and 15, lays them out. */
module Stun {
  import opened Prelude

  const HEADER := 20
  const COOKIE: Bytes := [0x21, 0x12, 0xA4, 0x42]
  const USERNAME := 6
  const COLON := 58

  // ---------------------------------------------------------------- what the parser computes

  /** Position of the first `b` in `v`, or `|v|`. */
  function IndexOf(v: Bytes, b: Byte): (i: nat)
    ensures i <= |v| && b !in v[..i] && (i < |v| ==> v[i] == b)
  {
    if v == [] || v[0] == b then 0 else 1 + IndexOf(v[1..], b)
  }

  /** The part before the first colon; the whole name when there is no colon or nothing before it. */
  function Fragment(v: Bytes): Bytes {
    var i := IndexOf(v, COLON);
    if 0 < i < |v| then v[..i] else v
  }

  function Padded(n: nat): nat {
    if n % 4 != 0 then n + (4 - n % 4) else n
  }

  /** The name found by walking the attributes from offset `at`; empty when there is none. */
  function Scan(p: Bytes, at: nat): Bytes
    decreases if at <= |p| then |p| - at else 0
  {
    if at + 4 > |p| then []
    else
      var len := U16(p, at + 2);
      if at + 4 + len > |p| then []
      else if U16(p, at) == USERNAME then Fragment(p[at + 4..at + 4 + len])
      else Scan(p, at + 4 + Padded(len))
  }

  function Extract(p: Bytes): Bytes {
    if |p| < HEADER || p[4..8] != COOKIE || |p| < HEADER + U16(p, 2) then [] else Scan(p, HEADER)
  }

  // ---------------------------------------------------------------- the parser

  method FirstIndex(v: Bytes, b: Byte) returns (i: nat)
    ensures i == IndexOf(v, b)
  {
    i := 0;
    while i < |v|
      invariant i <= |v| && b !in v[..i]
    {
      if v[i] == b {
        break;
      }
      i := i + 1;
    }
    IndexUnique(v, b, i);
  }

  lemma {:induction false} IndexUnique(v: Bytes, b: Byte, i: nat)
    requires i <= |v| && b !in v[..i] && (i < |v| ==> v[i] == b)
    ensures i == IndexOf(v, b)
    decreases |v|
  {
    if i > 0 {
      assert v[..i][0] == v[0] && v[..i][1..] == v[1..][..i - 1];
      IndexUnique(v[1..], b, i - 1);
    }
  }

  method BeforeColon(username: Bytes) returns (name: Bytes)
    ensures name == Fragment(username)
  {
    var idx := FirstIndex(username, COLON);
    if 0 < idx < |username| {
      return username[..idx];
    }
    return username;
  }

  /** One attribute of the walk. */
  lemma ScanUnfold(p: Bytes, at: nat)
    requires at + 4 <= |p|
    ensures var len := U16(p, at + 2);
            Scan(p, at) == if at + 4 + len > |p| then []
                           else if U16(p, at) == USERNAME then Fragment(p[at + 4..at + 4 + len])
                           else Scan(p, at + 4 + Padded(len))
  {
  }

  /** `extractUfragFromSTUN`: never reads outside the packet, whatever the bytes. */
  method ExtractUfrag(p: Bytes) returns (name: Bytes)
    ensures name == Extract(p)
  {
    if |p| < HEADER || p[4..8] != COOKIE {
      return [];
    }
    var msgLen := U16(p, 2);
    if |p| < HEADER + msgLen {
      return [];
    }
    name := WalkAttributes(p);
  }

  method WalkAttributes(p: Bytes) returns (name: Bytes)
    ensures name == Scan(p, HEADER)
  {
    ghost var want := Scan(p, HEADER);
    var offset: nat := HEADER;
    while offset + 4 <= |p|
      invariant Scan(p, offset) == want
      decreases if offset <= |p| then |p| - offset else 0
    {
      ScanUnfold(p, offset);
      var attrType := U16(p, offset);
      var attrLen := U16(p, offset + 2);
      offset := offset + 4;
      if offset + attrLen > |p| {
        return [];
      }
      if attrType == USERNAME {
        name := BeforeColon(p[offset..offset + attrLen]);
        return;
      }
      offset := Aligned(offset, attrLen);
    }
    return [];
  }

  /** Past a value and up to the next four-byte boundary. */
  method Aligned(offset: nat, attrLen: nat) returns (next: nat)
    ensures next == offset + Padded(attrLen)
  {
    next := offset + attrLen;
    var pad := attrLen % 4;
    if pad != 0 {
      next := next + (4 - pad);
    }
  }

  // ---------------------------------------------------------------- encoding

  /** An attribute with whatever bytes fill it up to a multiple of four. */
  datatype Attr = Attr(kind: nat, value: Bytes, pad: Bytes)

  predicate Encodable(a: Attr) {
    a.kind < 0x1_0000 && |a.value| < 0x1_0000 && |a.value| + |a.pad| == Padded(|a.value|)
  }

  function Be16(n: nat): Bytes
    requires n < 0x1_0000
  {
    [n / 256, n % 256]
  }

  function EncodeAttr(a: Attr): Bytes
    requires Encodable(a)
  {
    Be16(a.kind) + Be16(|a.value|) + a.value + a.pad
  }

  function EncodeAll(attrs: seq<Attr>): Bytes
    requires forall i | 0 <= i < |attrs| :: Encodable(attrs[i])
  {
    if attrs == [] then [] else EncodeAttr(attrs[0]) + EncodeAll(attrs[1..])
  }

  /** A message: type, declared length, cookie and transaction identifier, then the attributes. */
  function Encode(kind: nat, declared: nat, txid: Bytes, attrs: seq<Attr>): Bytes
    requires kind < 0x1_0000 && declared < 0x1_0000 && |txid| == 12
    requires forall i | 0 <= i < |attrs| :: Encodable(attrs[i])
  {
    Be16(kind) + Be16(declared) + COOKIE + txid + EncodeAll(attrs)
  }

  /** The server's fragment in the first USERNAME attribute. */
  function FirstUsername(attrs: seq<Attr>): Bytes {
    if attrs == [] then []
    else if attrs[0].kind == USERNAME then Fragment(attrs[0].value)
    else FirstUsername(attrs[1..])
  }

  lemma ReadAttr(pre: Bytes, a: Attr, post: Bytes)
    requires Encodable(a)
    ensures var p := pre + EncodeAttr(a) + post;
            && |EncodeAttr(a)| == 4 + Padded(|a.value|)
            && U16(p, |pre|) == a.kind && U16(p, |pre| + 2) == |a.value|
            && p[|pre| + 4..|pre| + 4 + |a.value|] == a.value
  {
    var p := pre + EncodeAttr(a) + post;
    assert p[|pre|] == a.kind / 256 && p[|pre| + 1] == a.kind % 256;
    assert p[|pre| + 2] == |a.value| / 256 && p[|pre| + 3] == |a.value| % 256;
  }

  lemma ScanStep(pre: Bytes, a: Attr, post: Bytes)
    requires Encodable(a)
    ensures Scan(pre + EncodeAttr(a) + post, |pre|) ==
            if a.kind == USERNAME then Fragment(a.value) else Scan(pre + EncodeAttr(a) + post, |pre + EncodeAttr(a)|)
  {
    ReadAttr(pre, a, post);
  }

  lemma {:induction false} ScanEncoded(pre: Bytes, attrs: seq<Attr>)
    requires forall i | 0 <= i < |attrs| :: Encodable(attrs[i])
    ensures Scan(pre + EncodeAll(attrs), |pre|) == FirstUsername(attrs)
    decreases |attrs|
  {
    if attrs == [] {
      assert pre + EncodeAll(attrs) == pre;
    } else {
      var a, rest := attrs[0], EncodeAll(attrs[1..]);
      assert pre + (EncodeAttr(a) + rest) == pre + EncodeAttr(a) + rest;
      ScanStep(pre, a, rest);
      ScanEncoded(pre + EncodeAttr(a), attrs[1..]);
    }
  }

  /** Parsing inverts encoding.  The declared length only has to fit: attributes behind it are
      read as well. */
  lemma ExtractInvertsEncode(kind: nat, declared: nat, txid: Bytes, attrs: seq<Attr>)
    requires kind < 0x1_0000 && declared < 0x1_0000 && |txid| == 12
    requires forall i | 0 <= i < |attrs| :: Encodable(attrs[i])
    ensures Extract(Encode(kind, declared, txid, attrs))
         == if declared <= |EncodeAll(attrs)| then FirstUsername(attrs) else []
  {
    var head := Be16(kind) + Be16(declared) + COOKIE + txid;
    var p := Encode(kind, declared, txid, attrs);
    assert p == head + EncodeAll(attrs);
    assert p[2] == declared / 256 && p[3] == declared % 256;
    assert p[4..8] == COOKIE;
    ScanEncoded(head, attrs);
  }

  /** A binding request names the session exactly by the server fragment: for a fragment that is
      not empty and has no colon, `server:client` parses back to `server`. */
  lemma RequestNamesSession(kind: nat, txid: Bytes, before: seq<Attr>, server: Bytes, client: Bytes, pad: Bytes, after: seq<Attr>)
    requires kind < 0x1_0000 && |txid| == 12
    requires server != [] && COLON !in server
    requires var attrs := before + [Attr(USERNAME, server + [COLON] + client, pad)] + after;
             && (forall i | 0 <= i < |attrs| :: Encodable(attrs[i]))
             && |EncodeAll(attrs)| < 0x1_0000
    requires forall i | 0 <= i < |before| :: before[i].kind != USERNAME
    ensures var attrs := before + [Attr(USERNAME, server + [COLON] + client, pad)] + after;
            Extract(Encode(kind, |EncodeAll(attrs)|, txid, attrs)) == server
  {
    var name := server + [COLON] + client;
    var u := Attr(USERNAME, name, pad);
    var attrs := before + [u] + after;
    ExtractInvertsEncode(kind, |EncodeAll(attrs)|, txid, attrs);
    FirstIs(before, u, after);
    assert name[..|server|] == server;
    IndexUnique(name, COLON, |server|);
  }

  lemma {:induction false} FirstIs(before: seq<Attr>, u: Attr, after: seq<Attr>)
    requires u.kind == USERNAME && forall i | 0 <= i < |before| :: before[i].kind != USERNAME
    ensures FirstUsername(before + [u] + after) == Fragment(u.value)
    decreases |before|
  {
    if before != [] {
      assert (before + [u] + after)[1..] == before[1..] + [u] + after;
      FirstIs(before[1..], u, after);
    }
  }
}
