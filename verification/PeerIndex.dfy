/** The online-session table (internal/tunnelapp/registry.go): three indexes rebuilt together and
    published as one immutable snapshot.  A `Peer` carries the identity number of its
    `*peerSession`; two handshakes of one code are two peers. */
module PeerIndex {
  import opened Prelude

  /** A normalised transport address. */
  datatype AddrPort = AddrPort(ip: int, port: int)
  datatype PeerId = PeerId(n: nat)
  datatype Peer = Peer(id: PeerId, code: CodeId, user: UserId, tunIP: TunIP, addr: AddrPort, mtu: int)

  datatype Index = Index(byCode: map<CodeId, Peer>, byAddr: map<AddrPort, Peer>, byTunIP: map<TunIP, Peer>)

  const Empty := Index(map[], map[], map[])

  /** Take one session out of the two address indexes: `byTunIP` by identity, `byAddr` by key. */
  function Unlink(ix: Index, p: Peer): Index {
    ix.(byAddr := ix.byAddr - {p.addr},
        byTunIP := if p.tunIP in ix.byTunIP && ix.byTunIP[p.tunIP] == p then ix.byTunIP - {p.tunIP} else ix.byTunIP)
  }

  function Upsert(ix: Index, p: Peer): Index {
    var ix1 := if p.code in ix.byCode then Unlink(ix, ix.byCode[p.code]) else ix;
    Index(ix1.byCode[p.code := p], ix1.byAddr[p.addr := p], ix1.byTunIP[p.tunIP := p])
  }

  function Evict(ix: Index, c: CodeId): Index {
    if c !in ix.byCode then ix
    else Unlink(ix.(byCode := ix.byCode - {c}), ix.byCode[c])
  }

  /** `reap` removes its dead list one by one; any order, any subset. */
  function Reap(ix: Index, dead: seq<CodeId>): Index
    decreases |dead|
  {
    if dead == [] then ix else Reap(Evict(ix, dead[0]), dead[1..])
  }

  // ---------------------------------------------------------------- soundness of lookups

  /** What a lookup may return: the current session of its own code, under its own key. */
  ghost predicate Sound(ix: Index) {
    && (forall c | c in ix.byCode :: ix.byCode[c].code == c)
    && (forall a | a in ix.byAddr :: IsCurrent(ix, ix.byAddr[a]) && ix.byAddr[a].addr == a)
    && (forall t | t in ix.byTunIP :: IsCurrent(ix, ix.byTunIP[t]) && ix.byTunIP[t].tunIP == t)
  }

  predicate IsCurrent(ix: Index, p: Peer) {
    p.code in ix.byCode && ix.byCode[p.code] == p
  }

  lemma UpsertSound(ix: Index, p: Peer)
    requires Sound(ix)
    ensures Sound(Upsert(ix, p))
  {
  }

  lemma EvictSound(ix: Index, c: CodeId)
    requires Sound(ix)
    ensures Sound(Evict(ix, c))
  {
  }

  lemma {:induction false} ReapSound(ix: Index, dead: seq<CodeId>)
    requires Sound(ix)
    ensures Sound(Reap(ix, dead))
    ensures forall c :: c in Reap(ix, dead).byCode <==> c in ix.byCode && c !in dead
    ensures forall c | c in Reap(ix, dead).byCode :: Reap(ix, dead).byCode[c] == ix.byCode[c]
    decreases |dead|
  {
    if dead != [] {
      EvictSound(ix, dead[0]);
      ReapSound(Evict(ix, dead[0]), dead[1..]);
      assert forall c :: c in dead <==> c == dead[0] || c in dead[1..];
    }
  }

  // ---------------------------------------------------------------- completeness of lookups

  ghost predicate AddrComplete(ix: Index) {
    forall c | c in ix.byCode :: ix.byCode[c].addr in ix.byAddr && ix.byAddr[ix.byCode[c].addr] == ix.byCode[c]
  }

  ghost predicate TunComplete(ix: Index) {
    forall c | c in ix.byCode :: ix.byCode[c].tunIP in ix.byTunIP && ix.byTunIP[ix.byCode[c].tunIP] == ix.byCode[c]
  }

  /** The test `handleHello` makes before installing a session, and only logs: the source address
      already belongs to another code's session. */
  predicate AddrTaken(ix: Index, p: Peer) {
    p.addr in ix.byAddr && ix.byAddr[p.addr].code != p.code
  }

  predicate TunTaken(ix: Index, p: Peer) {
    p.tunIP in ix.byTunIP && ix.byTunIP[p.tunIP].code != p.code
  }

  /** Installing a session keeps every session reachable by address exactly when that address is
      not already another code's. */
  lemma UpsertAddrIff(ix: Index, p: Peer)
    requires Sound(ix) && AddrComplete(ix)
    ensures AddrComplete(Upsert(ix, p)) <==> !AddrTaken(ix, p)
  {
    var ix' := Upsert(ix, p);
    if AddrTaken(ix, p) {
      var q := ix.byAddr[p.addr];
      assert ix'.byCode[q.code] == q && ix'.byAddr[q.addr] == p;
    } else {
      forall c | c in ix'.byCode ensures ix'.byCode[c].addr in ix'.byAddr && ix'.byAddr[ix'.byCode[c].addr] == ix'.byCode[c] {
        if c != p.code { assert ix.byAddr[ix.byCode[c].addr] == ix.byCode[c]; }
      }
    }
  }

  lemma UpsertTunIff(ix: Index, p: Peer)
    requires Sound(ix) && TunComplete(ix)
    ensures TunComplete(Upsert(ix, p)) <==> !TunTaken(ix, p)
  {
    var ix' := Upsert(ix, p);
    if TunTaken(ix, p) {
      var q := ix.byTunIP[p.tunIP];
      assert ix'.byCode[q.code] == q && ix'.byTunIP[q.tunIP] == p;
    } else {
      forall c | c in ix'.byCode ensures ix'.byCode[c].tunIP in ix'.byTunIP && ix'.byTunIP[ix'.byCode[c].tunIP] == ix'.byCode[c] {
        if c != p.code { assert ix.byTunIP[ix.byCode[c].tunIP] == ix.byCode[c]; }
      }
    }
  }

  lemma EvictKeepsComplete(ix: Index, c: CodeId)
    requires Sound(ix)
    ensures AddrComplete(ix) ==> AddrComplete(Evict(ix, c))
    ensures TunComplete(ix) ==> TunComplete(Evict(ix, c))
  {
  }

  /** The delete by address key spares every session that stands under another address. */
  lemma EvictKeepsAddrEntry(ix: Index, c: CodeId, d: CodeId)
    requires Sound(ix) && d in ix.byCode && c != d && (c in ix.byCode ==> ix.byCode[c].addr != ix.byCode[d].addr)
    requires Found(ix, d)
    ensures Found(Evict(ix, c), d) && Evict(ix, c).byCode[d] == ix.byCode[d]
  {
  }

  /** The address index finds the code's current session. */
  predicate Found(ix: Index, c: CodeId) {
    c in ix.byCode && ix.byCode[c].addr in ix.byAddr && ix.byAddr[ix.byCode[c].addr] == ix.byCode[c]
  }

  /** The identity-checked delete, as `byTunIP` has it, hides nobody: a session reachable by its
      tunnel address stays so until its own code leaves or is replaced or its address is reused. */
  lemma EvictKeepsTunEntry(ix: Index, c: CodeId, d: CodeId)
    requires Sound(ix) && d in ix.byCode && c != d
    requires ix.byCode[d].tunIP in ix.byTunIP && ix.byTunIP[ix.byCode[d].tunIP] == ix.byCode[d]
    ensures ix.byCode[d].tunIP in Evict(ix, c).byTunIP
    ensures Evict(ix, c).byTunIP[ix.byCode[d].tunIP] == ix.byCode[d]
  {
  }

  // ---------------------------------------------------------------- runs

  datatype Op = OUpsert(p: Peer) | OEvict(c: CodeId) | OReap(dead: seq<CodeId>)

  function Apply(ix: Index, op: Op): Index {
    match op
    case OUpsert(p) => Upsert(ix, p)
    case OEvict(c) => Evict(ix, c)
    case OReap(dead) => Reap(ix, dead)
  }

  function ApplyAll(ix: Index, ops: seq<Op>): Index {
    if ops == [] then ix else Apply(ApplyAll(ix, ops[..|ops| - 1]), ops[|ops| - 1])
  }

  /** Every session installed by `ops` uses the tunnel address assigned to its code. */
  ghost predicate TunAssigned(ops: seq<Op>, tun: map<CodeId, TunIP>) {
    forall i | 0 <= i < |ops| && ops[i].OUpsert? :: ops[i].p.code in tun && tun[ops[i].p.code] == ops[i].p.tunIP
  }

  ghost predicate Injective(tun: map<CodeId, TunIP>) {
    forall c, d | c in tun && d in tun && tun[c] == tun[d] :: c == d
  }

  /** Every run: what is found is current; with distinct tunnel addresses per code, every online
      code is found by its tunnel address, and the index holds nothing else. */
  lemma {:induction false} RunFinds(ops: seq<Op>, tun: map<CodeId, TunIP>)
    requires TunAssigned(ops, tun) && Injective(tun)
    ensures var ix := ApplyAll(Empty, ops);
            && Sound(ix) && TunComplete(ix)
            && (forall c | c in ix.byCode :: c in tun && ix.byCode[c].tunIP == tun[c])
            && (forall t :: t in ix.byTunIP <==> exists c :: c in ix.byCode && tun[c] == t)
    decreases |ops|
  {
    if ops != [] {
      var n := |ops| - 1;
      RunFinds(ops[..n], tun);
      var ix := ApplyAll(Empty, ops[..n]);
      StepFinds(ix, ops[n], tun);
    }
    var ix := ApplyAll(Empty, ops);
    forall t ensures t in ix.byTunIP <==> exists c :: c in ix.byCode && tun[c] == t {
      if t in ix.byTunIP { assert ix.byTunIP[t].code in ix.byCode; }
    }
  }

  lemma StepFinds(ix: Index, op: Op, tun: map<CodeId, TunIP>)
    requires Sound(ix) && TunComplete(ix) && Injective(tun)
    requires forall c | c in ix.byCode :: c in tun && ix.byCode[c].tunIP == tun[c]
    requires op.OUpsert? ==> op.p.code in tun && tun[op.p.code] == op.p.tunIP
    ensures var ix' := Apply(ix, op);
            && Sound(ix') && TunComplete(ix')
            && forall c | c in ix'.byCode :: c in tun && ix'.byCode[c].tunIP == tun[c]
  {
    match op
    case OUpsert(p) => UpsertSound(ix, p); UpsertTunIff(ix, p);
    case OEvict(c) => EvictSound(ix, c); EvictKeepsComplete(ix, c);
    case OReap(dead) => ReapSound(ix, dead); ReapKeepsComplete(ix, dead);
  }

  lemma {:induction false} ReapKeepsComplete(ix: Index, dead: seq<CodeId>)
    requires Sound(ix)
    ensures AddrComplete(ix) ==> AddrComplete(Reap(ix, dead))
    ensures TunComplete(ix) ==> TunComplete(Reap(ix, dead))
    decreases |dead|
  {
    if dead != [] {
      EvictSound(ix, dead[0]);
      EvictKeepsComplete(ix, dead[0]);
      ReapKeepsComplete(Evict(ix, dead[0]), dead[1..]);
    }
  }

  /** No handshake of `ops` came from an address another code's session was using: the port-reuse
      warning never fired. */
  ghost predicate NeverWarned(ops: seq<Op>)
    decreases |ops|
  {
    ops == [] || (NeverWarned(ops[..|ops| - 1]) && !Warns(ops))
  }

  /** The last step of `ops` is such a handshake. */
  predicate Warns(ops: seq<Op>)
    requires ops != []
  {
    var n := |ops| - 1;
    ops[n].OUpsert? && AddrTaken(ApplyAll(Empty, ops[..n]), ops[n].p)
  }

  ghost predicate AlwaysAddrComplete(ops: seq<Op>)
    decreases |ops|
  {
    AddrComplete(ApplyAll(Empty, ops)) && (ops == [] || AlwaysAddrComplete(ops[..|ops| - 1]))
  }

  lemma AddrStepIff(ix: Index, op: Op)
    requires Sound(ix) && AddrComplete(ix)
    ensures AddrComplete(Apply(ix, op)) <==> !(op.OUpsert? && AddrTaken(ix, op.p))
  {
    match op
    case OUpsert(p) => UpsertAddrIff(ix, p);
    case OEvict(c) => EvictKeepsComplete(ix, c);
    case OReap(dead) => ReapKeepsComplete(ix, dead);
  }

  /** Over whole runs: every online session can be found by its address at every moment if and only
      if the port-reuse warning never fires. */
  lemma {:induction false} AddrCompleteIffNeverWarned(ops: seq<Op>)
    ensures AlwaysAddrComplete(ops) <==> NeverWarned(ops)
    decreases |ops|
  {
    if ops != [] {
      var init := ops[..|ops| - 1];
      AddrCompleteIffNeverWarned(init);
      if NeverWarned(init) {
        RunSound(init);
        AddrStepIff(ApplyAll(Empty, init), ops[|ops| - 1]);
      }
    }
  }

  lemma {:induction false} RunSound(ops: seq<Op>)
    ensures Sound(ApplyAll(Empty, ops))
    decreases |ops|
  {
    if ops != [] {
      var n := |ops| - 1;
      RunSound(ops[..n]);
      var ix := ApplyAll(Empty, ops[..n]);
      match ops[n]
      case OUpsert(p) => UpsertSound(ix, p);
      case OEvict(c) => EvictSound(ix, c);
      case OReap(dead) => ReapSound(ix, dead);
    }
  }

  /** Only codes installed from this very address by some handshake of `ops`. */
  ghost predicate Unshared(ops: seq<Op>, c: CodeId, a: AddrPort) {
    forall i | 0 <= i < |ops| && ops[i].OUpsert? && ops[i].p.addr == a :: ops[i].p.code == c
  }

  lemma {:induction false} OthersElsewhere(ops: seq<Op>, c: CodeId, a: AddrPort)
    requires Unshared(ops, c, a)
    ensures var ix := ApplyAll(Empty, ops); Sound(ix) && forall d | d in ix.byCode && d != c :: ix.byCode[d].addr != a
    decreases |ops|
  {
    RunSound(ops);
    if ops != [] {
      var n := |ops| - 1;
      OthersElsewhere(ops[..n], c, a);
      var ix := ApplyAll(Empty, ops[..n]);
      if ops[n].OReap? { ReapSound(ix, ops[n].dead); }
    }
  }

  lemma {:induction false} ReapKeepsAddrEntry(ix: Index, dead: seq<CodeId>, d: CodeId)
    requires Sound(ix) && d !in dead && Found(ix, d)
    requires forall c | c in ix.byCode && c != d :: ix.byCode[c].addr != ix.byCode[d].addr
    ensures Found(Reap(ix, dead), d) && Reap(ix, dead).byCode[d] == ix.byCode[d]
    decreases |dead|
  {
    if dead != [] {
      EvictSound(ix, dead[0]);
      EvictKeepsAddrEntry(ix, dead[0], d);
      ReapKeepsAddrEntry(Evict(ix, dead[0]), dead[1..], d);
    }
  }

  /** Session by session, over every run: an online code whose current address no handshake of another
      code has ever used is found by that address, whatever else was evicted, reaped or replaced. */
  lemma {:induction false} UnsharedIsFound(ops: seq<Op>, c: CodeId)
    requires c in ApplyAll(Empty, ops).byCode && Unshared(ops, c, ApplyAll(Empty, ops).byCode[c].addr)
    ensures Found(ApplyAll(Empty, ops), c)
    decreases |ops|
  {
    if ops != [] {
      var n := |ops| - 1;
      var ix, a := ApplyAll(Empty, ops[..n]), ApplyAll(Empty, ops).byCode[c].addr;
      OthersElsewhere(ops[..n], c, a);
      match ops[n]
      case OUpsert(p) =>
        if p.code != c {
          UnsharedIsFound(ops[..n], c);
        }
      case OEvict(d) => UnsharedIsFound(ops[..n], c); EvictKeepsAddrEntry(ix, d, c);
      case OReap(dead) =>
        ReapSound(ix, dead);
        UnsharedIsFound(ops[..n], c);
        ReapKeepsAddrEntry(ix, dead, c);
    }
  }

  /** Two clients behind one NAT port: after the first is evicted, the second is online but no
      packet of its own finds it. */
  lemma SharedPortLosesSession()
    ensures var a := Peer(PeerId(1), CodeId(1), UserId(1), TunIP(11), AddrPort(5, 5), 1400);
            var b := Peer(PeerId(2), CodeId(2), UserId(2), TunIP(12), AddrPort(5, 5), 1400);
            var ix := ApplyAll(Empty, [OUpsert(a), OUpsert(b), OEvict(CodeId(1))]);
            IsCurrent(ix, b) && b.addr !in ix.byAddr
  {
    var a := Peer(PeerId(1), CodeId(1), UserId(1), TunIP(11), AddrPort(5, 5), 1400);
    var b := Peer(PeerId(2), CodeId(2), UserId(2), TunIP(12), AddrPort(5, 5), 1400);
    var ops := [OUpsert(a), OUpsert(b), OEvict(CodeId(1))];
    assert ops[..2][..1][..0] == [] && ops[..2] == [OUpsert(a), OUpsert(b)] && ops[..2][..1] == [OUpsert(a)];
    var i1 := Apply(Empty, ops[0]);
    assert ApplyAll(Empty, ops[..2][..1]) == i1;
    var i2 := Apply(i1, ops[1]);
    assert ApplyAll(Empty, ops[..2]) == i2;
    assert ApplyAll(Empty, ops) == Apply(i2, ops[2]);
  }

  // ---------------------------------------------------------------- the table object

  /** `registry`: `ix` is the published snapshot.  Readers hold a snapshot as a value, so no later
      write can change what they see. */
  class Registry {
    var ix: Index
    /** `lastSeen` of every session object, in seconds. */
    var lastSeen: map<PeerId, int>

    ghost predicate Valid()
      reads this
    {
      Sound(ix) && forall c | c in ix.byCode :: ix.byCode[c].id in lastSeen
    }

    constructor ()
      ensures Valid() && ix == Empty
    {
      ix, lastSeen := Empty, map[];
    }

    method Install(p: Peer, now: int) returns (prev: Option<Peer>)
      requires Valid()
      modifies this
      ensures Valid() && ix == Upsert(old(ix), p)
      ensures prev == if p.code in old(ix).byCode then Some(old(ix).byCode[p.code]) else None
      ensures ix.byCode == old(ix).byCode[p.code := p] && lastSeen == old(lastSeen)[p.id := now]
      ensures ix.byAddr == (if prev.Some? then old(ix).byAddr - {prev.value.addr} else old(ix).byAddr)[p.addr := p]
      ensures forall t :: t in ix.byTunIP <==>
                t == p.tunIP || (t in old(ix).byTunIP && (prev.None? || old(ix).byTunIP[t] != prev.value))
    {
      UpsertSound(ix, p);
      var next := ix;
      prev := if p.code in next.byCode then Some(next.byCode[p.code]) else None;
      if prev.Some? {
        next := next.(byAddr := next.byAddr - {prev.value.addr});
        if prev.value.tunIP in next.byTunIP && next.byTunIP[prev.value.tunIP] == prev.value {
          next := next.(byTunIP := next.byTunIP - {prev.value.tunIP});
        }
      }
      next := next.(byCode := next.byCode[p.code := p]);
      next := next.(byAddr := next.byAddr[p.addr := p]);
      next := next.(byTunIP := next.byTunIP[p.tunIP := p]);
      lastSeen := lastSeen[p.id := now];
      ix := next;
    }

    method EvictCode(c: CodeId) returns (gone: Option<Peer>)
      requires Valid()
      modifies this`ix
      ensures Valid() && ix == Evict(old(ix), c)
      ensures gone == if c in old(ix).byCode then Some(old(ix).byCode[c]) else None
      ensures gone.None? ==> ix == old(ix)
      ensures ix.byCode == old(ix).byCode - {c} && (gone.Some? ==> ix.byAddr == old(ix).byAddr - {gone.value.addr})
      ensures forall t :: t in ix.byTunIP <==> t in old(ix).byTunIP && (gone.None? || old(ix).byTunIP[t] != gone.value)
    {
      EvictSound(ix, c);
      if c !in ix.byCode {
        return None;
      }
      var p := ix.byCode[c];
      var next := ix.(byCode := ix.byCode - {c}, byAddr := ix.byAddr - {p.addr});
      if p.tunIP in next.byTunIP && next.byTunIP[p.tunIP] == p {
        next := next.(byTunIP := next.byTunIP - {p.tunIP});
      }
      ix := next;
      return Some(p);
    }

    /** `reap`: exactly the sessions idle for longer than `idle` go; nothing is published when
        there are none. */
    method ReapIdle(now: int, idle: int) returns (dead: seq<CodeId>)
      requires Valid()
      modifies this`ix
      ensures Valid() && ix == Reap(old(ix), dead)
      ensures forall c :: c in dead <==> c in old(ix).byCode && now - lastSeen[old(ix).byCode[c].id] > idle
      ensures forall c :: c in ix.byCode <==> c in old(ix).byCode && now - lastSeen[old(ix).byCode[c].id] <= idle
    {
      dead := [];
      var todo := ix.byCode.Keys;
      while todo != {}
        invariant todo <= ix.byCode.Keys
        invariant forall c :: c in dead <==> c in ix.byCode && c !in todo && now - lastSeen[ix.byCode[c].id] > idle
        decreases todo
      {
        var c :| c in todo;
        if now - lastSeen[ix.byCode[c].id] > idle {
          dead := dead + [c];
        }
        todo := todo - {c};
      }
      ReapSound(ix, dead);
      if dead == [] {
        return;
      }
      var next := ix;
      var i := 0;
      while i < |dead|
        invariant 0 <= i <= |dead| && Reap(next, dead[i..]) == Reap(ix, dead)
      {
        assert dead[i..][0] == dead[i] && dead[i..][1..] == dead[i + 1..];
        next := Evict(next, dead[i]);
        i := i + 1;
      }
      ix := next;
    }

    /** `countByUser`. */
    method CountByUser(u: UserId) returns (n: nat)
      ensures n == |OnlineOf(ix, u)|
    {
      n := 0;
      var todo := ix.byCode.Keys;
      ghost var seen: set<CodeId> := {};
      while todo != {}
        invariant todo <= ix.byCode.Keys
        invariant seen == OnlineOf(ix, u) - todo && n == |seen|
        decreases todo
      {
        var c :| c in todo;
        ghost var was := seen;
        if ix.byCode[c].user == u {
          n := n + 1;
          seen := seen + {c};
        }
        todo := todo - {c};
        assert seen == OnlineOf(ix, u) - todo;
      }
      assert OnlineOf(ix, u) - {} == OnlineOf(ix, u);
    }
  }

  ghost function OnlineOf(ix: Index, u: UserId): set<CodeId> {
    set c | c in ix.byCode && ix.byCode[c].user == u
  }
}
