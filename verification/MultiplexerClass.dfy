/** The objects of the NetherNet data plane; every method is one critical section of the source
    and is proved equal to its step in `MuxSpec`. */
module Multiplexer {
  import opened Prelude
  import opened MuxSpec
  import opened MuxTraffic

  lemma {:induction false} EndAllAppend(w: World, order: seq<Ufrag>, u: Ufrag)
    ensures EndAll(w, order + [u]) == var v := EndAll(w, order); if Known(v, u) then End(v, u) else v
    decreases |order|
  {
    if order == [] {
      assert ([] + [u])[1..] == [];
    } else {
      assert (order + [u])[1..] == order[1..] + [u];
      EndAllAppend(if Known(w, order[0]) then End(w, order[0]) else w, order[1..], u);
    }
  }

  lemma {:induction false} ReportAllAppend(w: World, order: seq<Ufrag>, u: Ufrag)
    ensures ReportAll(w, order + [u]) == var v := ReportAll(w, order); if Known(v, u) then ReportOne(v, u) else v
    decreases |order|
  {
    if order == [] {
      assert ([] + [u])[1..] == [];
    } else {
      assert (order + [u])[1..] == order[1..] + [u];
      ReportAllAppend(if Known(w, order[0]) then ReportOne(w, order[0]) else w, order[1..], u);
    }
  }

  /** Ending some sessions leaves every other one as it was. */
  lemma {:induction false} EndAllSpares(w: World, order: seq<Ufrag>, u: Ufrag)
    requires Inv(w) && Conserved(w) && u !in order && Known(w, u)
    ensures Known(EndAll(w, order), u) && EndAll(w, order).sessions[u] == w.sessions[u]
    ensures EndAll(w, order).objs[w.sessions[u]] == w.objs[w.sessions[u]]
    decreases |order|
  {
    if order != [] {
      assert SessOk(w, order[0]) && SessOk(w, u);
      if Known(w, order[0]) {
        EndKeeps(w, order[0]);
        EndConserves(w, order[0]);
        EndAllSpares(End(w, order[0]), order[1..], u);
      } else {
        EndAllSpares(w, order[1..], u);
      }
    }
  }

  lemma NoneLeft(w: World)
    requires Inv(w) && w.sessions.Keys == {}
    ensures w.sessions == map[] && w.addrMap == map[]
  {
    forall a ensures a !in w.addrMap { assert AddrOk(w, a); }
  }

  /** One round of a loop that ends sessions. */
  lemma EndNext(w: World, order: seq<Ufrag>, u: Ufrag)
    requires Inv(w) && Conserved(w) && u in w.sessions && u !in order
    ensures var v := EndAll(w, order);
            && Known(v, u) && EndAll(w, order + [u]) == End(v, u) && Inv(End(v, u)) && Conserved(End(v, u))
            && End(v, u).sessions == v.sessions - {u}
            && End(v, u).stopped == v.stopped
  {
    assert SessOk(w, u);
    EndAllKeeps(w, order);
    EndAllSpares(w, order, u);
    EndAllAppend(w, order, u);
    EndKeeps(EndAll(w, order), u);
    EndConserves(EndAll(w, order), u);
  }

  class Mux {
    var objs: seq<Sess>
    var sessions: map<Ufrag, nat>
    var addrMap: map<Addr, nat>
    var ruleIn: int
    var ruleOut: int
    var total: nat
    var stopped: bool
    ghost var pend: seq<nat>
    // the sink and the registry behind it
    var infos: map<Ufrag, nat>
    var table: map<Addr, nat>
    var infoObjs: seq<Info>
    ghost var events: seq<Event>

    ghost function View(): World
      reads this
    {
      World(objs, sessions, addrMap, ruleIn, ruleOut, total, pend, stopped, infos, table, infoObjs, events)
    }

    ghost predicate Valid()
      reads this
    {
      Inv(View()) && Conserved(View())
    }

    constructor ()
      ensures View() == Start && Valid()
    {
      objs, sessions, addrMap, ruleIn, ruleOut, total, stopped := [], map[], map[], 0, 0, 0, false;
      pend, infos, table, infoObjs, events := [], map[], map[], [], [];
      new;
      assert View() == Start;
      RunKeeps([Start], [], 0);
    }

    /** `obtain`, the registry's get-or-insert. */
    method Obtain(a: Addr) returns (id: nat)
      modifies this`table, this`infoObjs
      ensures id == (if a in old(table) then old(table)[a] else |old(infoObjs)|)
      ensures table == old(table)[a := id]
      ensures infoObjs == if a in old(table) then old(infoObjs) else old(infoObjs) + [Info(a, 0, 0)]
    {
      if a in table {
        id := table[a];
        assert table == table[a := id];
        return;
      }
      id := |infoObjs|;
      infoObjs := infoObjs + [Info(a, 0, 0)];
      table := table[a := id];
    }

    method NetherSessionStart(u: Ufrag, a: Addr)
      modifies this`table, this`infoObjs, this`infos, this`events
      ensures View() == SinkStart(old(View()), u, a)
    {
      var id := Obtain(a);
      infos := infos[u := id];
      events := events + [Started(u, a)];
    }

    method NetherSessionBytes(u: Ufrag, a: Addr, din: int, dout: int)
      modifies this`infoObjs, this`events
      ensures View() == SinkBytes(old(View()), u, a, din, dout)
    {
      events := events + [Moved(u, a, din, dout)];
      if u in infos && infos[u] < |infoObjs| {
        var si := infoObjs[infos[u]];
        infoObjs := infoObjs[infos[u] := si.(bytesIn := si.bytesIn + din, bytesOut := si.bytesOut + dout)];
      }
    }

    method NetherSessionEnd(u: Ufrag, a: Addr)
      modifies this`infos, this`table, this`events
      ensures View() == SinkEnd(old(View()), u, a)
    {
      events := events + [Ended(u, a)];
      if u in infos {
        var id := infos[u];
        infos := infos - {u};
        if id < |infoObjs| {
          table := table - {infoObjs[id].key};
        }
      } else {
        assert infos == infos - {u};
      }
    }

    /** `endSessionLocked`: the address entry goes only if it is this session's. */
    method EndSessionLocked(u: Ufrag)
      requires Known(View(), u)
      modifies this
      ensures View() == End(old(View()), u)
      ensures var i := old(sessions)[u];
              && sessions == old(sessions) - {u} && objs == old(objs)[i := old(objs)[i].(sock := false)]
              && addrMap == map a | a in old(addrMap) && (old(objs)[i].client != Some(a) || old(addrMap)[a] != i) :: old(addrMap)[a]
    {
      var i := sessions[u];
      var c := objs[i].client;
      sessions := sessions - {u};
      if c.Some? && c.value in addrMap && addrMap[c.value] == i {
        addrMap := addrMap - {c.value};
      }
      objs := objs[i := objs[i].(sock := false)];
      if c.Some? {
        NetherSessionEnd(u, c.value);
      }
    }

    method RegisterSession(u: Ufrag, now: int)
      requires Valid()
      modifies this
      ensures Valid() && View() == Next(old(View()), Register(u, now))
      ensures sessions == old(sessions)[u := |old(objs)|] && |objs| == |old(objs)| + 1
      ensures objs[|old(objs)|] == Sess(u, None, false, false, now, 0, 0, 0, 0)
      ensures u in old(sessions) ==> old(sessions)[u] < |old(objs)| && !objs[old(sessions)[u]].sock
    {
      assert SessOk(View(), u);
      StepKeeps(View(), Register(u, now));
      if u in sessions {
        EndSessionLocked(u);
      }
      sessions := sessions[u := |objs|];
      objs := objs + [Sess(u, None, false, false, now, 0, 0, 0, 0)];
    }

    /** `forwardToTarget`; `bindOk` and `sentOk` are the outcomes of binding the player's address
        and of the send. */
    method ForwardToTarget(i: nat, n: nat, bindOk: bool, sentOk: bool)
      requires i < |objs|
      modifies this`objs, this`ruleIn
      ensures View() == Forward(old(View()), i, n, bindOk, sentOk)
    {
      var o := objs[i];
      if !o.sock && bindOk && o.client.Some? {
        o := o.(sock := true);
      }
      if sentOk {
        o := o.(bytesIn := o.bytesIn + n);
        ruleIn := ruleIn + n;
      }
      objs := objs[i := o];
    }

    /** The address of the first STUN packet becomes the session's; the start event comes before the
        first forwarding. */
    method LearnAddress(u: Ufrag, a: Addr, now: int)
      requires Known(View(), u)
      modifies this
      ensures View() == Learn(old(View()), u, a, now)
    {
      var i := sessions[u];
      objs := objs[i := objs[i].(client := Some(a), learned := true, seen := now)];
      addrMap := addrMap[a := i];
      NetherSessionStart(u, a);
      total := total + 1;
    }

    method Refresh(i: nat, n: nat, now: int, bindOk: bool, sentOk: bool)
      requires i < |objs|
      modifies this`objs, this`ruleIn
      ensures var w := old(View());
              View() == Forward(w.(objs := w.objs[i := w.objs[i].(seen := now)]), i, n, bindOk, sentOk)
    {
      objs := objs[i := objs[i].(seen := now)];
      ForwardToTarget(i, n, bindOk, sentOk);
    }

    /** `handlePacket`, with the result of the STUN parse. */
    /** A packet from an unknown address. */
    method FirstPacket(a: Addr, n: nat, stun: Option<Ufrag>, now: int, bindOk: bool, sentOk: bool)
      requires Inv(View()) && n >= 20 && a !in addrMap
      modifies this
      ensures View() == Next(old(View()), Packet(a, n, stun, now, bindOk, sentOk))
    {
      if stun.Some? {
        var u := stun.value;
        assert SessOk(View(), u);
        if u in sessions && !objs[sessions[u]].learned {
          LearnAddress(u, a, now);
          ForwardToTarget(sessions[u], n, bindOk, sentOk);
        }
      }
    }

    method HandlePacket(a: Addr, n: nat, stun: Option<Ufrag>, now: int, bindOk: bool, sentOk: bool)
      requires Valid()
      modifies this
      ensures Valid() && View() == Next(old(View()), Packet(a, n, stun, now, bindOk, sentOk))
      ensures PacketHandled(old(View()), a, n, stun, now, bindOk, sentOk, View())
    {
      PacketSays(View(), a, n, stun, now, bindOk, sentOk);
      StepKeeps(View(), Packet(a, n, stun, now, bindOk, sentOk));
      assert AddrOk(View(), a);
      if n < 20 {
        return;
      }
      if a in addrMap {
        Refresh(addrMap[a], n, now, bindOk, sentOk);
        return;
      }
      FirstPacket(a, n, stun, now, bindOk, sentOk);
    }

    method ReportSession(u: Ufrag)
      requires Known(View(), u)
      modifies this
      ensures View() == ReportOne(old(View()), u)
    {
      var i := sessions[u];
      var o := objs[i];
      var din, dout := o.bytesIn - o.repIn, o.bytesOut - o.repOut;
      if din == 0 && dout == 0 {
        return;
      }
      objs := objs[i := o.(repIn := o.bytesIn, repOut := o.bytesOut)];
      if o.client.Some? {
        NetherSessionBytes(u, o.client.value, din, dout);
      }
    }

    method ReportBytes() returns (ghost order: seq<Ufrag>)
      requires Valid()
      modifies this
      ensures Valid() && Enumerates(order, old(sessions).Keys)
      ensures View() == Next(old(View()), Report(order))
      ensures sessions == old(sessions) && forall u | u in sessions :: sessions[u] < |objs| && Told(objs[sessions[u]])
    {
      ghost var w0 := View();
      var todo := sessions.Keys;
      order := [];
      while todo != {}
        invariant View() == ReportAll(w0, order) && Inv(View()) && Conserved(View()) && sessions == w0.sessions
        invariant todo <= sessions.Keys && Enumerates(order, sessions.Keys - todo)
        decreases todo
      {
        var u :| u in todo;
        assert SessOk(View(), u);
        ReportAllAppend(w0, order, u);
        ReportKeeps(View(), u);
        ReportConserves(View(), u);
        ReportSession(u);
        order := order + [u];
        todo := todo - {u};
      }
      ReportSays(w0, order);
    }

    method Cleanup(now: int) returns (ghost stale: seq<Ufrag>)
      requires Valid()
      modifies this
      ensures Valid() && Enumerates(stale, StaleSet(old(View()), now))
      ensures View() == Next(old(View()), Act.Cleanup(stale, now))
      ensures forall u :: u in sessions <==>
                u in old(sessions) && old(sessions)[u] < |old(objs)| && now - old(objs)[old(sessions)[u]].seen <= 60
    {
      ghost var w0 := View();
      var todo := sessions.Keys;
      stale := [];
      while todo != {}
        invariant View() == EndAll(w0, stale) && Inv(View()) && Conserved(View())
        invariant todo <= w0.sessions.Keys && Enumerates(stale, StaleSet(w0, now) - todo)
        decreases todo
      {
        var u :| u in todo;
        assert SessOk(w0, u);
        EndAllSpares(w0, stale, u);
        if now - objs[sessions[u]].seen > IDLE {
          EndAllAppend(w0, stale, u);
          EndKeeps(View(), u);
          EndConserves(View(), u);
          EndSessionLocked(u);
          stale := stale + [u];
        }
        todo := todo - {u};
      }
      CleanupSays(w0, stale, now);
    }

    method Stop() returns (ghost order: seq<Ufrag>)
      requires Valid()
      modifies this
      ensures Valid() && (!old(stopped) ==> Enumerates(order, old(sessions).Keys))
      ensures View() == Next(old(View()), Act.Stop(order))
      ensures stopped && (!old(stopped) ==> sessions == map[] && addrMap == map[])
    {
      ghost var w0 := View();
      order := [];
      if stopped {
        return;
      }
      var todo := sessions.Keys;
      while todo != {}
        invariant View() == EndAll(w0, order) && Inv(View()) && Conserved(View()) && !stopped
        invariant todo == sessions.Keys <= w0.sessions.Keys && Enumerates(order, w0.sessions.Keys - todo)
        decreases todo
      {
        var u :| u in todo;
        EndNext(w0, order, u);
        EndSessionLocked(u);
        order := order + [u];
        todo := todo - {u};
      }
      NoneLeft(View());
      StopKeeps(w0, order);
      stopped := true;
    }

    /** `Stats`: `active` counts the learned sessions, which is the number of registered addresses. */
    method Stats() returns (bytesIn: int, bytesOut: int, active: nat, joined: nat)
      requires Valid()
      ensures bytesIn == Total(objs, In) && bytesOut + SumOf(pend) == Total(objs, Out)
      ensures active == |table| && joined == Starts(events)
      ensures forall ws, acts | Run(ws, acts) && ws[|acts|] == View() ::
                bytesIn == InSumAll(ws, acts, |acts|) && bytesOut + SumOf(pend) == OutSumAll(acts, |acts|)
    {
      forall ws, acts | Run(ws, acts) && ws[|acts|] == View()
        ensures ruleIn == InSumAll(ws, acts, |acts|) && ruleOut + SumOf(pend) == OutSumAll(acts, |acts|)
      {
        TotalsAreTraffic(ws, acts, |acts|);
      }
      assert FieldOk(View(), In) && FieldOk(View(), Out);
      bytesIn, bytesOut, joined, active := ruleIn, ruleOut, total, 0;
      var todo := sessions.Keys;
      ghost var at: set<Addr> := {};
      while todo != {}
        invariant todo <= sessions.Keys && active == |at|
        invariant forall a :: a in at <==> a in addrMap && addrMap[a] < |objs| && objs[addrMap[a]].ufrag in sessions.Keys - todo
        decreases todo
      {
        var u :| u in todo;
        assert SessOk(View(), u);
        if objs[sessions[u]].learned {
          active := active + 1;
          ghost var c := objs[sessions[u]].client.value;
          assert c !in at;
          at := at + {c};
        }
        ghost var was := todo;
        todo := todo - {u};
        forall a ensures a in at <==> a in addrMap && addrMap[a] < |objs| && objs[addrMap[a]].ufrag in sessions.Keys - todo {
          assert AddrOk(View(), a);
        }
      }
      forall a ensures a in at <==> a in table { assert AddrOk(View(), a); InvGivesBijection(View(), a); }
      assert at == table.Keys;
    }
  }
}
