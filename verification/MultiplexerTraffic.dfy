/** What the counters of the NetherNet data plane say of the packets themselves, and when a session
    was last heard from (internal/nethernet/multiplexer.go:162-207, 270-370, 397-470). */
module MuxTraffic {
  import opened Prelude
  import opened MuxSpec

  // ---------------------------------------------------------------- one packet

  /** A registered session that no packet has named yet. */
  predicate Awaits(w: World, stun: Option<Ufrag>) {
    stun.Some? && Known(w, stun.value) && !w.objs[w.sessions[stun.value]].learned
  }

  /** What becomes of a packet: from a known address it is its session's; from another it opens the session
      it names, if that one is waiting; and else, or if it is shorter than 20 bytes, nothing happens.  What
      is forwarded is counted once it is sent, for the session and for the rule. */
  predicate PacketHandled(w: World, a: Addr, n: nat, stun: Option<Ufrag>, now: int, bindOk: bool, sentOk: bool, w': World) {
    var sent := if sentOk then n else 0;
    if n < 20 then w' == w
    else if a in w.addrMap then
      var i := w.addrMap[a];
      && i < |w.objs|
      && var o := w.objs[i];
         w' == w.(objs := w.objs[i := o.(seen := now, sock := o.sock || bindOk, bytesIn := o.bytesIn + sent)], ruleIn := w.ruleIn + sent)
    else if Awaits(w, stun) then
      var i := w.sessions[stun.value];
      && w'.objs == w.objs[i := Sess(stun.value, Some(a), true, bindOk, now, sent, 0, 0, 0)]
      && w'.ruleIn == w.ruleIn + sent && w'.total == w.total + 1 && w'.addrMap == w.addrMap[a := i] && w'.sessions == w.sessions
      && w'.events == w.events + [Started(stun.value, a)]
      && stun.value in w'.infos && a in w'.table && w'.table[a] == w'.infos[stun.value] == |w.infoObjs|
      && w'.infoObjs == w.infoObjs + [Info(a, 0, 0)]
    else w' == w
  }

  lemma PacketSays(w: World, a: Addr, n: nat, stun: Option<Ufrag>, now: int, bindOk: bool, sentOk: bool)
    requires Inv(w)
    ensures PacketHandled(w, a, n, stun, now, bindOk, sentOk, Next(w, Packet(a, n, stun, now, bindOk, sentOk)))
  {
    assert AddrOk(w, a);
    if n >= 20 && a !in w.addrMap && Awaits(w, stun) { OpeningSays(w, a, n, stun.value, now, bindOk, sentOk); }
  }

  lemma OpeningSays(w: World, a: Addr, n: nat, u: Ufrag, now: int, bindOk: bool, sentOk: bool)
    requires Inv(w) && n >= 20 && a !in w.addrMap && Awaits(w, Some(u))
    ensures PacketHandled(w, a, n, Some(u), now, bindOk, sentOk, Next(w, Packet(a, n, Some(u), now, bindOk, sentOk)))
  {
    assert SessOk(w, u) && ObjOk(w, w.sessions[u]) && AddrOk(w, a);
  }

  // ---------------------------------------------------------------- what counts

  /** The bytes of one packet, if it is one of session `i`: long enough, forwarded, and from the address
      that the table leads to `i` once it has been handled. */
  function InOf(a: Act, table: map<Addr, nat>, i: nat): nat {
    if a.Packet? && a.n >= 20 && a.sentOk && a.a in table && table[a.a] == i then a.n else 0
  }

  /** The same whatever the session. */
  function InOfAny(a: Act, table: map<Addr, nat>): nat {
    if a.Packet? && a.n >= 20 && a.sentOk && a.a in table then a.n else 0
  }

  function OutOf(a: Act, i: nat): nat { if a.Reply? && a.i == i then a.n else 0 }

  function OutOfAny(a: Act): nat { if a.Reply? then a.n else 0 }

  /** The reading at which session `i` was heard from, if this step is that: its registration, a packet
      from its address, or a reply on its socket. */
  function HeardBy(a: Act, table: map<Addr, nat>, size: nat, i: nat): Option<int> {
    match a
    case Register(_, now) => if i + 1 == size then Some(now) else None
    case Packet(from, n, _, now, _, _) => if n >= 20 && from in table && table[from] == i then Some(now) else None
    case ReplySeen(j, now) => if i == j then Some(now) else None
    case _ => None
  }

  // ---------------------------------------------------------------- over a run

  function InSum(ws: seq<World>, acts: seq<Act>, n: nat, i: nat): nat
    requires n <= |acts| && |ws| == |acts| + 1
  {
    if n == 0 then 0 else InSum(ws, acts, n - 1, i) + InOf(acts[n - 1], ws[n].addrMap, i)
  }

  function InSumAll(ws: seq<World>, acts: seq<Act>, n: nat): nat
    requires n <= |acts| && |ws| == |acts| + 1
  {
    if n == 0 then 0 else InSumAll(ws, acts, n - 1) + InOfAny(acts[n - 1], ws[n].addrMap)
  }

  function OutSum(acts: seq<Act>, n: nat, i: nat): nat
    requires n <= |acts|
  {
    if n == 0 then 0 else OutSum(acts, n - 1, i) + OutOf(acts[n - 1], i)
  }

  function OutSumAll(acts: seq<Act>, n: nat): nat
    requires n <= |acts|
  {
    if n == 0 then 0 else OutSumAll(acts, n - 1) + OutOfAny(acts[n - 1])
  }

  function LastHeard(ws: seq<World>, acts: seq<Act>, n: nat, i: nat): Option<int>
    requires n <= |acts| && |ws| == |acts| + 1
  {
    if n == 0 then None
    else
      var now := HeardBy(acts[n - 1], ws[n].addrMap, |ws[n].objs|, i);
      if now.Some? then now else LastHeard(ws, acts, n - 1, i)
  }

  // ---------------------------------------------------------------- one step

  /** Ending or reporting sessions leaves the objects' traffic and times alone. */
  ghost predicate SameTraffic(w: World, w': World) {
    && |w'.objs| == |w.objs| && w'.ruleIn == w.ruleIn && w'.ruleOut == w.ruleOut && w'.pend == w.pend
    && forall i | 0 <= i < |w.objs| :: SameCounts(w.objs[i], w'.objs[i])
  }

  predicate SameCounts(o: Sess, o': Sess) { o'.bytesIn == o.bytesIn && o'.bytesOut == o.bytesOut && o'.seen == o.seen }

  lemma {:induction false} EndAllSame(w: World, order: seq<Ufrag>)
    ensures SameTraffic(w, EndAll(w, order))
    decreases |order|
  {
    if order != [] { EndAllSame(if Known(w, order[0]) then End(w, order[0]) else w, order[1..]); }
  }

  lemma {:induction false} ReportAllSame(w: World, order: seq<Ufrag>)
    ensures SameTraffic(w, ReportAll(w, order))
    decreases |order|
  {
    if order != [] { ReportAllSame(if Known(w, order[0]) then ReportOne(w, order[0]) else w, order[1..]); }
  }

  /** What one step adds to session `i`, which may be new. */
  ghost predicate Adds(w: World, a: Act, w': World, i: nat) {
    i < |w'.objs| ==>
      var heard := HeardBy(a, w'.addrMap, |w'.objs|, i);
      && |w.objs| <= |w'.objs|
      && w'.objs[i].bytesIn == (if i < |w.objs| then w.objs[i].bytesIn else 0) + InOf(a, w'.addrMap, i)
      && w'.objs[i].bytesOut == (if i < |w.objs| then w.objs[i].bytesOut else 0) + OutOf(a, i)
      && (i >= |w.objs| ==> heard.Some?)
      && w'.objs[i].seen == if heard.Some? then heard.value else w.objs[i].seen
  }

  ghost predicate AddsToRule(w: World, a: Act, w': World) {
    w'.ruleIn == w.ruleIn + InOfAny(a, w'.addrMap) && w'.ruleOut + SumOf(w'.pend) == w.ruleOut + SumOf(w.pend) + OutOfAny(a)
  }

  lemma SameAdds(w: World, a: Act, w': World, i: nat)
    requires SameTraffic(w, w') && (a.Cleanup? || a.Report? || a.Stop?)
    ensures Adds(w, a, w', i) && AddsToRule(w, a, w')
  {
    if i < |w.objs| { assert SameCounts(w.objs[i], w'.objs[i]); }
  }

  lemma RegisterAdds(w: World, u: Ufrag, now: int, i: nat)
    ensures var w' := Replace(w, u, now);
            |w.objs| + 1 == |w'.objs| && Adds(w, Register(u, now), w', i) && AddsToRule(w, Register(u, now), w')
  {
  }

  lemma ReplyAdds(w: World, a: Act, i: nat)
    requires Enabled(w, a) && (a.Reply? || a.ReplyCounted? || a.ReplySeen?)
    ensures |w.objs| == |Next(w, a).objs| && Adds(w, a, Next(w, a), i) && AddsToRule(w, a, Next(w, a))
  {
    if a.Reply? { SumAppend(w.pend, a.n); }
    if a.ReplyCounted? { SumRemove(w.pend, a.k); }
  }

  lemma StepAdds(w: World, a: Act, i: nat)
    requires Inv(w) && Enabled(w, a)
    ensures |w.objs| <= |Next(w, a).objs| && Adds(w, a, Next(w, a), i) && AddsToRule(w, a, Next(w, a))
  {
    match a
    case Register(u, now) => RegisterAdds(w, u, now, i);
    case Packet(_, _, _, _, _, _) => PacketAdds(w, a, i);
    case Reply(_, _) => ReplyAdds(w, a, i);
    case ReplyCounted(_) => ReplyAdds(w, a, i);
    case ReplySeen(_, _) => ReplyAdds(w, a, i);
    case _ =>
      StepSame(w, a);
      SameAdds(w, a, Next(w, a), i);
  }

  lemma StepSame(w: World, a: Act)
    requires a.Cleanup? || a.Report? || a.Stop?
    ensures SameTraffic(w, Next(w, a))
  {
    match a
    case Cleanup(stale, _) => EndAllSame(w, stale);
    case Report(order) => ReportAllSame(w, order);
    case Stop(order) => EndAllSame(w, order);
  }

  /** A packet from a known address, on the objects. */
  lemma KnownAdds(w: World, a: Act, k: nat, i: nat)
    requires a.Packet? && a.n >= 20 && a.a in w.addrMap && w.addrMap[a.a] == k < |w.objs|
    ensures Adds(w, a, Next(w, a), i) && AddsToRule(w, a, Next(w, a)) && |Next(w, a).objs| == |w.objs|
  {
  }

  lemma LearnAdds(w: World, a: Act, i: nat)
    requires a.Packet? && a.n >= 20 && a.a !in w.addrMap && a.stun.Some? && Known(w, a.stun.value)
    requires !w.objs[w.sessions[a.stun.value]].learned
    ensures Adds(w, a, Next(w, a), i) && AddsToRule(w, a, Next(w, a)) && |Next(w, a).objs| == |w.objs|
  {
  }

  lemma PacketAdds(w: World, a: Act, i: nat)
    requires Inv(w) && a.Packet?
    ensures |w.objs| == |Next(w, a).objs| && Adds(w, a, Next(w, a), i) && AddsToRule(w, a, Next(w, a))
  {
    assert AddrOk(w, a.a);
    if a.n >= 20 && a.a in w.addrMap {
      KnownAdds(w, a, w.addrMap[a.a], i);
    } else if a.n >= 20 && a.stun.Some? && Known(w, a.stun.value) && !w.objs[w.sessions[a.stun.value]].learned {
      LearnAdds(w, a, i);
    } else {
      assert Next(w, a) == w;
    }
  }

  // ---------------------------------------------------------------- every run

  lemma RunAdds(ws: seq<World>, acts: seq<Act>, n: nat, i: nat)
    requires Run(ws, acts) && 0 < n <= |acts|
    ensures |ws[n - 1].objs| <= |ws[n].objs| && Adds(ws[n - 1], acts[n - 1], ws[n], i) && AddsToRule(ws[n - 1], acts[n - 1], ws[n])
    ensures i >= |ws[n].objs| ==> InOf(acts[n - 1], ws[n].addrMap, i) == OutOf(acts[n - 1], i) == 0
  {
    RunKeeps(ws, acts, n - 1);
    RunKeeps(ws, acts, n);
    assert Step(ws[n - 1], acts[n - 1], ws[n]);
    StepAdds(ws[n - 1], acts[n - 1], i);
    if acts[n - 1].Packet? { assert AddrOk(ws[n], acts[n - 1].a); }
  }

  /** At every moment of every run, a session's counters are the sums of its packets and replies, and its
      time is when it was last heard from. */
  lemma {:induction false} CountersAreTraffic(ws: seq<World>, acts: seq<Act>, n: nat, i: nat)
    requires Run(ws, acts) && n <= |acts|
    ensures i < |ws[n].objs| ==>
              && ws[n].objs[i].bytesIn == InSum(ws, acts, n, i) && ws[n].objs[i].bytesOut == OutSum(acts, n, i)
              && LastHeard(ws, acts, n, i) == Some(ws[n].objs[i].seen)
    ensures i >= |ws[n].objs| ==> InSum(ws, acts, n, i) == OutSum(acts, n, i) == 0
    decreases n
  {
    if n > 0 {
      CountersAreTraffic(ws, acts, n - 1, i);
      RunAdds(ws, acts, n, i);
    }
  }

  /** And the rule's totals are the sums over all packets and all replies, up to replies whose second
      counter is still to be raised. */
  lemma {:induction false} TotalsAreTraffic(ws: seq<World>, acts: seq<Act>, n: nat)
    requires Run(ws, acts) && n <= |acts|
    ensures ws[n].ruleIn == InSumAll(ws, acts, n) && ws[n].ruleOut + SumOf(ws[n].pend) == OutSumAll(acts, n)
    decreases n
  {
    if n > 0 {
      TotalsAreTraffic(ws, acts, n - 1);
      RunAdds(ws, acts, n, 0);
    }
  }

  // ---------------------------------------------------------------- cleanup and reports

  lemma CleanupSays(w: World, stale: seq<Ufrag>, now: int)
    requires Inv(w) && Conserved(w) && Enumerates(stale, StaleSet(w, now))
    ensures forall u :: u in EndAll(w, stale).sessions <==>
              u in w.sessions && w.sessions[u] < |w.objs| && now - w.objs[w.sessions[u]].seen <= 60
  {
    EndAllKeeps(w, stale);
    forall u ensures u in EndAll(w, stale).sessions <==>
                     u in w.sessions && w.sessions[u] < |w.objs| && now - w.objs[w.sessions[u]].seen <= 60
    {
      assert SessOk(w, u);
    }
  }

  lemma ReportSays(w: World, order: seq<Ufrag>)
    requires Inv(w) && Conserved(w) && Enumerates(order, w.sessions.Keys)
    ensures var w' := ReportAll(w, order);
            w'.sessions == w.sessions && forall u | u in w.sessions :: w.sessions[u] < |w'.objs| && Told(w'.objs[w.sessions[u]])
  {
    ReportAllKeeps(w, order);
    forall u | u in w.sessions
      ensures w.sessions[u] < |ReportAll(w, order).objs| && Told(ReportAll(w, order).objs[w.sessions[u]])
    {
      assert SessOk(w, u);
      ReportAllTells(w, order, u);
    }
  }

  /** A cleanup ends exactly the sessions not heard from for more than 60 seconds: while packets or
      replies keep coming within that time, a session stays. */
  lemma CleanupEndsSilent(ws: seq<World>, acts: seq<Act>, n: nat, u: Ufrag)
    requires Run(ws, acts) && n < |acts| && acts[n].Cleanup?
    ensures u in ws[n + 1].sessions <==>
            && u in ws[n].sessions && LastHeard(ws, acts, n, ws[n].sessions[u]).Some?
            && acts[n].now - LastHeard(ws, acts, n, ws[n].sessions[u]).value <= 60
  {
    assert Step(ws[n], acts[n], ws[n + 1]);
    RunKeeps(ws, acts, n);
    EndAllKeeps(ws[n], acts[n].stale);
    assert SessOk(ws[n], u);
    if u in ws[n].sessions { CountersAreTraffic(ws, acts, n, ws[n].sessions[u]); }
  }

  /** After a report every session's traffic has been told, and the registry shows it. */
  lemma ReportTellsAll(ws: seq<World>, acts: seq<Act>, n: nat, u: Ufrag, a: Addr)
    requires Run(ws, acts) && n < |acts| && acts[n].Report? && At(ws[n + 1], u, a)
    ensures var i := ws[n + 1].sessions[u];
            && a in ws[n + 1].table && ws[n + 1].table[a] < |ws[n + 1].infoObjs|
            && ws[n + 1].infoObjs[ws[n + 1].table[a]] == Info(a, InSum(ws, acts, n + 1, i), OutSum(acts, n + 1, i))
  {
    ReportTells(ws, acts, n, u);
    RegistryFollows(ws, acts, n + 1, a);
    CountersAreTraffic(ws, acts, n + 1, ws[n + 1].sessions[u]);
  }

  lemma ReportTells(ws: seq<World>, acts: seq<Act>, n: nat, u: Ufrag)
    requires Run(ws, acts) && n < |acts| && acts[n].Report? && u in ws[n + 1].sessions
    ensures Known(ws[n + 1], u) && Told(ws[n + 1].objs[ws[n + 1].sessions[u]])
  {
    assert Step(ws[n], acts[n], ws[n + 1]);
    RunKeeps(ws, acts, n);
    assert SessOk(ws[n], u);
    ReportAllKeeps(ws[n], acts[n].order);
    ReportAllTells(ws[n], acts[n].order, u);
  }

  predicate Told(o: Sess) { o.repIn == o.bytesIn && o.repOut == o.bytesOut }

  lemma {:induction false} ReportAllTells(w: World, order: seq<Ufrag>, u: Ufrag)
    requires Inv(w) && Conserved(w) && Known(w, u)
    requires u in order || Told(w.objs[w.sessions[u]])
    ensures var w' := ReportAll(w, order); Known(w', u) && w'.sessions[u] == w.sessions[u] && Told(w'.objs[w.sessions[u]])
    decreases |order|
  {
    if order != [] {
      var w1 := if Known(w, order[0]) then ReportOne(w, order[0]) else w;
      assert SessOk(w, u) && SessOk(w, order[0]);
      if Known(w, order[0]) {
        ReportKeeps(w, order[0]);
        ReportConserves(w, order[0]);
      }
      ReportAllTells(w1, order[1..], u);
    }
  }
}
