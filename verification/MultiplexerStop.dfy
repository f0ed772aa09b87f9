/** What stopping a multiplexer leaves behind (internal/nethernet/multiplexer.go:372-395, 525-541). */
module MuxStop {
  import opened Prelude
  import opened MuxSpec

  /** Nothing is open: every start has been followed by its end. */
  ghost predicate Quiet(w: World) {
    w.sessions == map[] && w.addrMap == map[] && w.table == map[] && forall u :: Open(w.events, u) == None
  }

  lemma EmptyIsQuiet(w: World)
    requires Inv(w) && w.sessions == map[]
    ensures Quiet(w) && SocksClosed(w)
  {
    forall u ensures Open(w.events, u) == None { assert SessOk(w, u); }
    forall a ensures a !in w.addrMap && a !in w.table { assert AddrOk(w, a); }
    forall i: nat | i < |w.objs| ensures !w.objs[i].sock { assert ObjOk(w, i); }
  }

  predicate SocksClosed(w: World) { forall i: nat | i < |w.objs| :: !w.objs[i].sock }

  lemma StopEndsAll(ws: seq<World>, acts: seq<Act>, k: nat, n: nat)
    requires Run(ws, acts) && k < n <= |acts|
    requires acts[k].Stop? && !ws[k].stopped
    requires forall j | k < j < n :: !acts[j].Register?
    ensures Quiet(ws[n]) && SocksClosed(ws[n])
    decreases n
  {
    RunKeeps(ws, acts, n);
    RunKeeps(ws, acts, n - 1);
    assert Step(ws[n - 1], acts[n - 1], ws[n]);
    if n == k + 1 {
      EndAllKeeps(ws[k], acts[k].order);
      assert ws[n].sessions.Keys == {};
    } else {
      StopEndsAll(ws, acts, k, n - 1);
      StaysEmpty(ws[n - 1], acts[n - 1]);
    }
    EmptyIsQuiet(ws[n]);
  }

  lemma StaysEmpty(w: World, a: Act)
    requires Inv(w) && Conserved(w) && Enabled(w, a) && w.sessions == map[] && w.addrMap == map[] && !a.Register?
    ensures Next(w, a).sessions == map[]
  {
    match a
    case Cleanup(stale, _) => EndAllKeeps(w, stale); assert Next(w, a).sessions.Keys == {};
    case Report(order) => ReportAllKeeps(w, order);
    case Stop(order) => EndAllKeeps(w, order); assert Next(w, a).sessions.Keys == {};
    case _ =>
  }

  lemma RegisterOpens(w: World, a: Act)
    ensures a.Register? ==> !Quiet(Next(w, a))
  {
    if a.Register? { assert a.u in Next(w, a).sessions; }
  }

  /** Stop ends every session, closes every player socket and leaves every start paired with an end;
      and it stays so at every later moment of the run if and only if nothing is registered after it. */
  lemma StopPairsAllIff(ws: seq<World>, acts: seq<Act>, k: nat)
    requires Run(ws, acts) && k < |acts| && acts[k].Stop? && !ws[k].stopped
    ensures Quiet(ws[k + 1]) && SocksClosed(ws[k + 1])
    ensures (forall n | k < n <= |acts| :: Quiet(ws[n]) && SocksClosed(ws[n]))
       <==> (forall j | k < j < |acts| :: !acts[j].Register?)
  {
    StopEndsAll(ws, acts, k, k + 1);
    if forall n | k < n <= |acts| :: Quiet(ws[n]) && SocksClosed(ws[n]) {
      forall j | k < j < |acts| ensures !acts[j].Register? {
        assert Step(ws[j], acts[j], ws[j + 1]) && Quiet(ws[j + 1]);
        RegisterOpens(ws[j], acts[j]);
      }
    }
    if forall j | k < j < |acts| :: !acts[j].Register? {
      forall n | k < n <= |acts| ensures Quiet(ws[n]) && SocksClosed(ws[n]) { StopEndsAll(ws, acts, k, n); }
    }
  }

  /** The condition is needed, after every run that has been stopped: the code does not refuse a
      registration then, and a packet still in flight opens a session that no further Stop ends. */
  lemma RegisterAfterStopStaysOpen(ws: seq<World>, acts: seq<Act>, k: nat, u: Ufrag, a: Addr, n: nat, now: int,
                                   bindOk: bool, sentOk: bool)
    requires Run(ws, acts) && k < |acts| && acts[k].Stop? && !ws[k].stopped
    requires forall j | k < j < |acts| :: !acts[j].Register?
    requires n >= 20
    ensures var w1 := Next(ws[|acts|], Register(u, now));
            var w2 := Next(w1, Packet(a, n, Some(u), now, bindOk, sentOk));
            && Run(ws + [w1, w2], acts + [Register(u, now), Packet(a, n, Some(u), now, bindOk, sentOk)])
            && Open(w2.events, u) == Some(a) && forall order :: Next(w2, Stop(order)) == w2
  {
    StopEndsAll(ws, acts, k, |acts|);
    StaysStopped(ws, acts, k, |acts|);
    var w := ws[|acts|];
    var act1, act2 := Register(u, now), Packet(a, n, Some(u), now, bindOk, sentOk);
    var w1 := Next(w, act1);
    RunOneMore(ws, acts, act1);
    RunOneMore(ws + [w1], acts + [act1], act2);
    assert ws + [w1] + [Next(w1, act2)] == ws + [w1, Next(w1, act2)] && acts + [act1] + [act2] == acts + [act1, act2];
    OpensQuiet(w, u, a, n, now, bindOk, sentOk);
  }

  lemma OpensQuiet(w: World, u: Ufrag, a: Addr, n: nat, now: int, bindOk: bool, sentOk: bool)
    requires Quiet(w) && w.stopped && n >= 20
    ensures var w2 := Next(Next(w, Register(u, now)), Packet(a, n, Some(u), now, bindOk, sentOk));
            Open(w2.events, u) == Some(a) && w2.stopped
  {
    OpenAppend(w.events, Started(u, a), u);
  }

  lemma {:induction false} StaysStopped(ws: seq<World>, acts: seq<Act>, k: nat, n: nat)
    requires Run(ws, acts) && k < n <= |acts| && acts[k].Stop?
    ensures ws[n].stopped
    decreases n
  {
    assert Step(ws[n - 1], acts[n - 1], ws[n]);
    if n > k + 1 {
      StaysStopped(ws, acts, k, n - 1);
      StoppedStays(ws[n - 1], acts[n - 1]);
    }
  }

  lemma StoppedStays(w: World, a: Act)
    requires w.stopped
    ensures Next(w, a).stopped
  {
    if a.Cleanup? { EndAllStopped(w, a.stale); }
    if a.Report? { ReportAllStopped(w, a.order); }
  }

  lemma {:induction false} EndAllStopped(w: World, order: seq<Ufrag>)
    ensures EndAll(w, order).stopped == w.stopped
    decreases |order|
  {
    if order != [] { EndAllStopped(if Known(w, order[0]) then End(w, order[0]) else w, order[1..]); }
  }

  lemma {:induction false} ReportAllStopped(w: World, order: seq<Ufrag>)
    ensures ReportAll(w, order).stopped == w.stopped
    decreases |order|
  {
    if order != [] { ReportAllStopped(if Known(w, order[0]) then ReportOne(w, order[0]) else w, order[1..]); }
  }

  lemma RunOneMore(ws: seq<World>, acts: seq<Act>, a: Act)
    requires Run(ws, acts) && Enabled(ws[|acts|], a)
    ensures Run(ws + [Next(ws[|acts|], a)], acts + [a])
  {
    var ws', acts' := ws + [Next(ws[|acts|], a)], acts + [a];
    forall i | 0 <= i < |acts'| ensures Step(ws'[i], acts'[i], ws'[i + 1]) {
      if i < |acts| { assert Step(ws[i], acts[i], ws[i + 1]); }
    }
  }
}
