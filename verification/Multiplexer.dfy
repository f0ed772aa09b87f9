/** The NetherNet data plane (internal/nethernet/multiplexer.go:162-207, 270-541) together with the
    session sink it feeds (internal/forward/nethernet_backend.go:66-119) and the session registry
    behind that (internal/forward/acl.go:191-225).  One `World` holds all three; session and
    registry objects are the entries of `objs` and `infoObjs`, named by their position. */
module MuxSpec {
  import opened Prelude

  datatype Addr = Addr(ip: int, port: int)
  datatype Ufrag = Ufrag(text: string)

  /** `netherSession`. */
  datatype Sess = Sess(ufrag: Ufrag, client: Option<Addr>, learned: bool, sock: bool, seen: int,
                       bytesIn: int, bytesOut: int, repIn: int, repOut: int)
  /** `sessionInfo`; its key is the rule and the client address, and the rule is fixed. */
  datatype Info = Info(key: Addr, bytesIn: int, bytesOut: int)

  datatype Event = Started(u: Ufrag, a: Addr) | Moved(u: Ufrag, a: Addr, din: int, dout: int) | Ended(u: Ufrag, a: Addr)

  datatype World = World(
    objs: seq<Sess>, sessions: map<Ufrag, nat>, addrMap: map<Addr, nat>,
    ruleIn: int, ruleOut: int, total: nat, pend: seq<nat>, stopped: bool,
    infos: map<Ufrag, nat>, table: map<Addr, nat>, infoObjs: seq<Info>, events: seq<Event>)

  const Start := World([], map[], map[], 0, 0, 0, [], false, map[], map[], [], [])

  // ---------------------------------------------------------------- the sink

  /** `obtain` then remember; a fresh entry unless the address is registered already. */
  function SinkStart(w: World, u: Ufrag, a: Addr): World {
    var known := a in w.table;
    var id := if known then w.table[a] else |w.infoObjs|;
    w.(infoObjs := if known then w.infoObjs else w.infoObjs + [Info(a, 0, 0)],
       table := w.table[a := id], infos := w.infos[u := id], events := w.events + [Started(u, a)])
  }

  function SinkBytes(w: World, u: Ufrag, a: Addr, din: int, dout: int): World {
    var w' := w.(events := w.events + [Moved(u, a, din, dout)]);
    if u !in w.infos || w.infos[u] >= |w.infoObjs| then w' else
    var id := w.infos[u];
    w'.(infoObjs := w.infoObjs[id := w.infoObjs[id].(bytesIn := w.infoObjs[id].bytesIn + din, bytesOut := w.infoObjs[id].bytesOut + dout)])
  }

  function SinkEnd(w: World, u: Ufrag, a: Addr): World {
    var w' := w.(infos := w.infos - {u}, events := w.events + [Ended(u, a)]);
    if u !in w.infos || w.infos[u] >= |w.infoObjs| then w'
    else w'.(table := w.table - {w.infoObjs[w.infos[u]].key})
  }

  // ---------------------------------------------------------------- the multiplexer

  predicate Live(w: World, i: nat) {
    i < |w.objs| && w.objs[i].ufrag in w.sessions && w.sessions[w.objs[i].ufrag] == i
  }

  /** `endSessionLocked`. */
  function End(w: World, u: Ufrag): World
    requires u in w.sessions && w.sessions[u] < |w.objs|
  {
    var i := w.sessions[u];
    var c := w.objs[i].client;
    var w1 := w.(sessions := w.sessions - {u},
                 addrMap := if c.Some? && c.value in w.addrMap && w.addrMap[c.value] == i then w.addrMap - {c.value} else w.addrMap,
                 objs := w.objs[i := w.objs[i].(sock := false)]);
    if c.Some? then SinkEnd(w1, u, c.value) else w1
  }

  function Add(w: World, u: Ufrag, now: int): World {
    w.(objs := w.objs + [Sess(u, None, false, false, now, 0, 0, 0, 0)], sessions := w.sessions[u := |w.objs|])
  }

  /** A STUN packet from `a` names the unlearned session `u`. */
  function Learn(w: World, u: Ufrag, a: Addr, now: int): World
    requires u in w.sessions && w.sessions[u] < |w.objs|
  {
    var i := w.sessions[u];
    var w1 := w.(objs := w.objs[i := w.objs[i].(client := Some(a), learned := true, seen := now)], addrMap := w.addrMap[a := i]);
    var w2 := SinkStart(w1, u, a);
    w2.(total := w2.total + 1)
  }

  /** `forwardToTarget`: bind the player's own socket if possible, send, count. */
  function Forward(w: World, i: nat, n: nat, bindOk: bool, sentOk: bool): World
    requires i < |w.objs|
  {
    var o := w.objs[i];
    var o1 := o.(sock := o.sock || (bindOk && o.client.Some?));
    var o2 := if sentOk then o1.(bytesIn := o1.bytesIn + n) else o1;
    w.(objs := w.objs[i := o2], ruleIn := if sentOk then w.ruleIn + n else w.ruleIn)
  }

  function ReportOne(w: World, u: Ufrag): World
    requires u in w.sessions && w.sessions[u] < |w.objs|
  {
    var i := w.sessions[u];
    var o := w.objs[i];
    if o.bytesIn == o.repIn && o.bytesOut == o.repOut then w else
    var w1 := w.(objs := w.objs[i := o.(repIn := o.bytesIn, repOut := o.bytesOut)]);
    if o.client.Some? then SinkBytes(w1, u, o.client.value, o.bytesIn - o.repIn, o.bytesOut - o.repOut) else w1
  }

  // ---------------------------------------------------------------- reading the event log

  /** The address a ufrag's last Start event left open, if no End followed it. */
  function Open(ev: seq<Event>, u: Ufrag): Option<Addr>
    decreases |ev|
  {
    if ev == [] then None
    else
      var e := ev[|ev| - 1];
      if e.Started? && e.u == u then Some(e.a)
      else if e.Ended? && e.u == u then None
      else Open(ev[..|ev| - 1], u)
  }

  /** Starts and ends strictly alternate per ufrag, each end names the address of its start, and
      bytes are reported only in between. */
  predicate Paired(ev: seq<Event>)
    decreases |ev|
  {
    ev == [] ||
    var init, e := ev[..|ev| - 1], ev[|ev| - 1];
    && Paired(init)
    && Open(init, e.u) == if e.Started? then None else Some(e.a)
  }

  lemma OpenAppend(ev: seq<Event>, e: Event, u: Ufrag)
    ensures Open(ev + [e], u) ==
            if e.u != u || e.Moved? then Open(ev, u) else if e.Started? then Some(e.a) else None
  {
    assert (ev + [e])[..|ev|] == ev;
  }

  lemma PairedAppend(ev: seq<Event>, e: Event)
    ensures Paired(ev + [e]) <==> Paired(ev) && Open(ev, e.u) == if e.Started? then None else Some(e.a)
  {
    assert (ev + [e])[..|ev|] == ev;
  }

  // ---------------------------------------------------------------- invariants

  predicate SessOk(w: World, u: Ufrag) {
    if u in w.sessions then
      && w.sessions[u] < |w.objs| && w.objs[w.sessions[u]].ufrag == u
      && w.objs[w.sessions[u]].learned == w.objs[w.sessions[u]].client.Some?
      && if w.objs[w.sessions[u]].learned then LearnedOk(w, u, w.sessions[u], w.objs[w.sessions[u]].client.value)
         else u !in w.infos && Open(w.events, u) == None && Silent(w.objs[w.sessions[u]])
    else u !in w.infos && Open(w.events, u) == None
  }

  predicate Silent(o: Sess) { o.bytesIn == o.bytesOut == o.repIn == o.repOut == 0 }

  /** A learned session is reachable by its address, registered under it, and the registry shows
      exactly what was reported. */
  predicate LearnedOk(w: World, u: Ufrag, i: nat, a: Addr)
    requires i < |w.objs|
  {
    && a in w.addrMap && w.addrMap[a] == i
    && u in w.infos && a in w.table && w.table[a] == w.infos[u] < |w.infoObjs|
    && w.infoObjs[w.infos[u]] == Info(a, w.objs[i].repIn, w.objs[i].repOut)
    && Open(w.events, u) == Some(a)
  }

  predicate AddrOk(w: World, a: Addr) {
    if a in w.addrMap then Live(w, w.addrMap[a]) && w.objs[w.addrMap[a]].client == Some(a)
    else a !in w.table
  }

  predicate ObjOk(w: World, i: nat) {
    i < |w.objs| ==>
      && 0 <= w.objs[i].repIn <= w.objs[i].bytesIn && 0 <= w.objs[i].repOut <= w.objs[i].bytesOut
      && (w.objs[i].sock ==> Live(w, i) && w.objs[i].learned)
      && (w.objs[i].client.None? ==> Silent(w.objs[i]))
  }

  ghost predicate Inv(w: World) {
    && (forall u {:trigger SessOk(w, u)} :: SessOk(w, u))
    && (forall a {:trigger AddrOk(w, a)} :: AddrOk(w, a))
    && (forall i: nat {:trigger ObjOk(w, i)} :: ObjOk(w, i))
    && Paired(w.events)
  }

  predicate At(w: World, u: Ufrag, a: Addr) {
    u in w.sessions && w.sessions[u] < |w.objs| && w.objs[w.sessions[u]].client == Some(a)
  }

  /** Learned sessions and `addrMap` are in bijection, and the registry has the same addresses. */
  lemma InvGivesBijection(w: World, a: Addr)
    requires Inv(w)
    ensures a in w.addrMap <==> exists u :: At(w, u, a)
    ensures a in w.addrMap <==> a in w.table
    ensures forall u, v | At(w, u, a) && At(w, v, a) :: u == v
  {
    assert AddrOk(w, a);
    forall u | At(w, u, a)
      ensures a in w.addrMap && w.addrMap[a] == w.sessions[u] && a in w.table && w.objs[w.sessions[u]].ufrag == u
    {
      assert SessOk(w, u);
    }
    if a in w.addrMap {
      var u := w.objs[w.addrMap[a]].ufrag;
      assert At(w, u, a);
    }
  }

  lemma AddKeeps(w: World, u: Ufrag, now: int)
    requires Inv(w) && u !in w.sessions
    ensures Inv(Add(w, u, now))
  {
    var w' := Add(w, u, now);
    forall v ensures SessOk(w', v) { assert SessOk(w, v); }
    forall a ensures AddrOk(w', a) { assert AddrOk(w, a); }
    forall i: nat ensures ObjOk(w', i) { assert ObjOk(w, i); }
  }

  lemma LearnKeeps(w: World, u: Ufrag, a: Addr, now: int)
    requires Inv(w) && u in w.sessions && w.sessions[u] < |w.objs| && !w.objs[w.sessions[u]].learned && a !in w.addrMap
    ensures Inv(Learn(w, u, a, now))
  {
    var w' := Learn(w, u, a, now);
    assert SessOk(w, u) && AddrOk(w, a);
    PairedAppend(w.events, Started(u, a));
    forall v ensures SessOk(w', v) { LearnSess(w, u, a, now, v); }
    forall b ensures AddrOk(w', b) { LearnAddr(w, u, a, now, b); }
    forall i: nat ensures ObjOk(w', i) { LearnObj(w, u, a, now, i); }
  }

  lemma LearnAddr(w: World, u: Ufrag, a: Addr, now: int, b: Addr)
    requires Inv(w) && u in w.sessions && w.sessions[u] < |w.objs| && !w.objs[w.sessions[u]].learned && a !in w.addrMap
    ensures AddrOk(Learn(w, u, a, now), b)
  {
    assert SessOk(w, u) && AddrOk(w, b);
  }

  lemma LearnObj(w: World, u: Ufrag, a: Addr, now: int, i: nat)
    requires Inv(w) && u in w.sessions && w.sessions[u] < |w.objs| && !w.objs[w.sessions[u]].learned && a !in w.addrMap
    ensures ObjOk(Learn(w, u, a, now), i)
  {
    assert SessOk(w, u) && ObjOk(w, i) && ObjOk(w, w.sessions[u]);
  }

  lemma LearnSess(w: World, u: Ufrag, a: Addr, now: int, v: Ufrag)
    requires Inv(w) && u in w.sessions && w.sessions[u] < |w.objs| && !w.objs[w.sessions[u]].learned && a !in w.addrMap
    ensures SessOk(Learn(w, u, a, now), v)
  {
    assert SessOk(w, u) && AddrOk(w, a) && SessOk(w, v);
    OpenAppend(w.events, Started(u, a), v);
  }

  lemma EndKeeps(w: World, u: Ufrag)
    requires Inv(w) && u in w.sessions && w.sessions[u] < |w.objs|
    ensures Inv(End(w, u)) && u !in End(w, u).sessions
  {
    var w' := End(w, u);
    assert SessOk(w, u);
    if w.objs[w.sessions[u]].learned {
      PairedAppend(w.events, Ended(u, w.objs[w.sessions[u]].client.value));
    }
    forall v ensures SessOk(w', v) { EndSess(w, u, v); }
    forall b ensures AddrOk(w', b) { EndAddr(w, u, b); }
    forall i: nat ensures ObjOk(w', i) { assert ObjOk(w, i); }
  }

  lemma EndSess(w: World, u: Ufrag, v: Ufrag)
    requires Inv(w) && u in w.sessions && w.sessions[u] < |w.objs|
    ensures SessOk(End(w, u), v)
  {
    assert SessOk(w, u) && SessOk(w, v);
    if w.objs[w.sessions[u]].learned {
      OpenAppend(w.events, Ended(u, w.objs[w.sessions[u]].client.value), v);
    }
  }

  lemma EndAddr(w: World, u: Ufrag, b: Addr)
    requires Inv(w) && u in w.sessions && w.sessions[u] < |w.objs|
    ensures AddrOk(End(w, u), b)
  {
    assert SessOk(w, u) && AddrOk(w, b);
  }

  /** A step that touches one session object's counters, socket or time only. */
  lemma TweakKeeps(w: World, w': World, i: nat)
    requires Inv(w) && i < |w.objs| && |w'.objs| == |w.objs|
    requires w' == w.(objs := w.objs[i := w'.objs[i]], ruleIn := w'.ruleIn, ruleOut := w'.ruleOut, pend := w'.pend)
    requires var o, o' := w.objs[i], w'.objs[i];
             && o'.ufrag == o.ufrag && o'.client == o.client && o'.learned == o.learned && o'.repIn == o.repIn && o'.repOut == o.repOut
             && o'.bytesIn >= o.bytesIn && o'.bytesOut >= o.bytesOut
             && (o'.sock ==> o.sock || (Live(w, i) && o.learned))
             && (o.client.None? ==> o'.bytesIn == o.bytesIn && o'.bytesOut == o.bytesOut)
    ensures Inv(w')
  {
    forall v ensures SessOk(w', v) { TweakSess(w, w', i, v); }
    forall b ensures AddrOk(w', b) { assert AddrOk(w, b); }
    forall k: nat ensures ObjOk(w', k) { assert ObjOk(w, k); }
  }

  lemma TweakSess(w: World, w': World, i: nat, v: Ufrag)
    requires Inv(w) && i < |w.objs| && |w'.objs| == |w.objs|
    requires w' == w.(objs := w.objs[i := w'.objs[i]], ruleIn := w'.ruleIn, ruleOut := w'.ruleOut, pend := w'.pend)
    requires var o, o' := w.objs[i], w'.objs[i];
             && o'.ufrag == o.ufrag && o'.client == o.client && o'.learned == o.learned && o'.repIn == o.repIn && o'.repOut == o.repOut
             && (o.client.None? ==> o'.bytesIn == o.bytesIn && o'.bytesOut == o.bytesOut)
    ensures SessOk(w', v)
  {
    assert SessOk(w, v);
  }

  lemma ReportKeeps(w: World, u: Ufrag)
    requires Inv(w) && u in w.sessions && w.sessions[u] < |w.objs|
    ensures Inv(ReportOne(w, u))
  {
    var w' := ReportOne(w, u);
    var i := w.sessions[u];
    var o := w.objs[i];
    assert SessOk(w, u) && ObjOk(w, i);
    if o.client.Some? && w' != w {
      PairedAppend(w.events, Moved(u, o.client.value, o.bytesIn - o.repIn, o.bytesOut - o.repOut));
      forall v ensures SessOk(w', v) { ReportSess(w, u, v); }
    }
    forall b ensures AddrOk(w', b) { ReportAddr(w, u, b); }
    forall k: nat ensures ObjOk(w', k) { ReportObj(w, u, k); }
  }

  lemma ReportAddr(w: World, u: Ufrag, b: Addr)
    requires Inv(w) && u in w.sessions && w.sessions[u] < |w.objs|
    ensures AddrOk(ReportOne(w, u), b)
  {
    assert AddrOk(w, b);
  }

  lemma ReportObj(w: World, u: Ufrag, k: nat)
    requires Inv(w) && u in w.sessions && w.sessions[u] < |w.objs|
    ensures ObjOk(ReportOne(w, u), k)
  {
    assert ObjOk(w, k) && ObjOk(w, w.sessions[u]);
  }

  lemma ReportSess(w: World, u: Ufrag, v: Ufrag)
    requires Inv(w) && u in w.sessions && w.sessions[u] < |w.objs| && w.objs[w.sessions[u]].client.Some?
    ensures SessOk(ReportOne(w, u), v)
  {
    var o := w.objs[w.sessions[u]];
    assert SessOk(w, u) && SessOk(w, v) && ObjOk(w, w.sessions[u]);
    OpenAppend(w.events, Moved(u, o.client.value, o.bytesIn - o.repIn, o.bytesOut - o.repOut), v);
    if v != u && v in w.sessions && w.objs[w.sessions[v]].learned {
      assert w.objs[w.sessions[v]].client != o.client;
    }
  }

  // ---------------------------------------------------------------- byte conservation

  datatype Field = In | Out | RepIn | RepOut

  function Get(o: Sess, f: Field): int {
    match f
    case In => o.bytesIn
    case Out => o.bytesOut
    case RepIn => o.repIn
    case RepOut => o.repOut
  }

  function Total(objs: seq<Sess>, f: Field): int {
    if objs == [] then 0 else Total(objs[..|objs| - 1], f) + Get(objs[|objs| - 1], f)
  }

  function SumOf(ns: seq<nat>): int {
    if ns == [] then 0 else SumOf(ns[..|ns| - 1]) + ns[|ns| - 1]
  }

  /** Everything ever reported to the sink, and the number of starts. */
  function Reported(ev: seq<Event>, f: Field): int
    decreases |ev|
  {
    if ev == [] then 0
    else
      var e := ev[|ev| - 1];
      Reported(ev[..|ev| - 1], f) + (if e.Moved? && f.RepIn? then e.din else if e.Moved? && f.RepOut? then e.dout else 0)
  }

  function Starts(ev: seq<Event>): nat
    decreases |ev|
  {
    if ev == [] then 0 else Starts(ev[..|ev| - 1]) + (if ev[|ev| - 1].Started? then 1 else 0)
  }

  lemma {:induction false} TotalUpdate(objs: seq<Sess>, i: nat, o: Sess, f: Field)
    requires i < |objs|
    ensures Total(objs[i := o], f) == Total(objs, f) - Get(objs[i], f) + Get(o, f)
    decreases |objs|
  {
    var n := |objs| - 1;
    if i == n {
      assert objs[i := o][..n] == objs[..n];
    } else {
      assert objs[i := o][..n] == objs[..n][i := o];
      TotalUpdate(objs[..n], i, o, f);
    }
  }

  lemma TotalAppend(objs: seq<Sess>, o: Sess, f: Field)
    ensures Total(objs + [o], f) == Total(objs, f) + Get(o, f)
  {
    assert (objs + [o])[..|objs|] == objs;
  }

  lemma SumAppend(ns: seq<nat>, n: nat)
    ensures SumOf(ns + [n]) == SumOf(ns) + n
  {
    assert (ns + [n])[..|ns|] == ns;
  }

  lemma {:induction false} SumRemove(ns: seq<nat>, k: nat)
    requires k < |ns|
    ensures SumOf(ns[..k] + ns[k + 1..]) == SumOf(ns) - ns[k]
    decreases |ns|
  {
    var n := |ns| - 1;
    if k == n {
      assert ns[..k] + ns[k + 1..] == ns[..n];
    } else {
      SumRemove(ns[..n], k);
      assert ns[..k] + ns[k + 1..] == (ns[..n][..k] + ns[..n][k + 1..]) + [ns[n]];
      SumAppend(ns[..n][..k] + ns[..n][k + 1..], ns[n]);
    }
  }

  lemma ReportedAppend(ev: seq<Event>, e: Event, f: Field)
    ensures Reported(ev + [e], f) == Reported(ev, f)
              + (if e.Moved? && f.RepIn? then e.din else if e.Moved? && f.RepOut? then e.dout else 0)
    ensures Starts(ev + [e]) == Starts(ev) + (if e.Started? then 1 else 0)
  {
    assert (ev + [e])[..|ev|] == ev;
  }

  /** What the books say the sum of field `f` over all sessions should be. */
  function Booked(w: World, f: Field): int {
    match f
    case In => w.ruleIn
    case Out => w.ruleOut + SumOf(w.pend)
    case _ => Reported(w.events, f)
  }

  predicate FieldOk(w: World, f: Field) {
    Total(w.objs, f) == Booked(w, f)
  }

  /** The rule's totals are the sums over all sessions ever created, up to replies whose second
      counter is still to be raised; what was reported is the sum of the watermarks; and `total`
      counts the starts. */
  ghost predicate Conserved(w: World) {
    (forall f {:trigger FieldOk(w, f)} :: FieldOk(w, f)) && w.total == Starts(w.events)
  }

  /** One session object changed and at most one event was logged. */
  lemma FieldAfter(w: World, w': World, i: nat, o: Sess, f: Field)
    requires FieldOk(w, f) && i < |w.objs| && w'.objs == w.objs[i := o]
    requires Booked(w', f) - Booked(w, f) == Get(o, f) - Get(w.objs[i], f)
    ensures FieldOk(w', f)
  {
    TotalUpdate(w.objs, i, o, f);
  }

  lemma AddConserves(w: World, u: Ufrag, now: int)
    requires Conserved(w)
    ensures Conserved(Add(w, u, now))
  {
    var w' := Add(w, u, now);
    forall f ensures FieldOk(w', f) {
      assert FieldOk(w, f);
      TotalAppend(w.objs, Sess(u, None, false, false, now, 0, 0, 0, 0), f);
      assert Booked(w', f) == Booked(w, f);
    }
  }

  lemma LearnConserves(w: World, u: Ufrag, a: Addr, now: int)
    requires Conserved(w) && u in w.sessions && w.sessions[u] < |w.objs|
    ensures Conserved(Learn(w, u, a, now))
  {
    var i, w' := w.sessions[u], Learn(w, u, a, now);
    forall f ensures FieldOk(w', f) {
      assert FieldOk(w, f);
      ReportedAppend(w.events, Started(u, a), f);
      FieldAfter(w, w', i, w'.objs[i], f);
    }
    ReportedAppend(w.events, Started(u, a), In);
  }

  lemma EndConserves(w: World, u: Ufrag)
    requires Conserved(w) && u in w.sessions && w.sessions[u] < |w.objs|
    ensures Conserved(End(w, u))
  {
    var i, w' := w.sessions[u], End(w, u);
    var o := w.objs[i];
    forall f ensures FieldOk(w', f) { EndField(w, u, f); }
    if o.client.Some? { ReportedAppend(w.events, Ended(u, o.client.value), In); }
  }

  lemma EndField(w: World, u: Ufrag, f: Field)
    requires Conserved(w) && u in w.sessions && w.sessions[u] < |w.objs|
    ensures FieldOk(End(w, u), f)
  {
    var o, w' := w.objs[w.sessions[u]], End(w, u);
    assert FieldOk(w, f);
    if o.client.Some? { ReportedAppend(w.events, Ended(u, o.client.value), f); }
    assert Booked(w', f) == Booked(w, f);
    FieldAfter(w, w', w.sessions[u], o.(sock := false), f);
  }

  lemma ForwardConserves(w: World, i: nat, n: nat, bindOk: bool, sentOk: bool)
    requires Conserved(w) && i < |w.objs|
    ensures Conserved(Forward(w, i, n, bindOk, sentOk))
    ensures var w' := Forward(w, i, n, bindOk, sentOk);
            && |w'.objs| == |w.objs| && w'.ruleIn - w.ruleIn == w'.objs[i].bytesIn - w.objs[i].bytesIn
            && w'.ruleIn == w.ruleIn + if sentOk then n else 0
  {
    var w' := Forward(w, i, n, bindOk, sentOk);
    forall f ensures FieldOk(w', f) {
      assert FieldOk(w, f);
      FieldAfter(w, w', i, w'.objs[i], f);
    }
  }

  /** What a report changes: the watermarks, and one logged event. */
  lemma ReportShape(w: World, u: Ufrag)
    requires Inv(w) && u in w.sessions && w.sessions[u] < |w.objs|
    requires ReportOne(w, u) != w
    ensures var i, w' := w.sessions[u], ReportOne(w, u);
            var o := w.objs[i];
            && o.client.Some?
            && w'.objs == w.objs[i := o.(repIn := o.bytesIn, repOut := o.bytesOut)]
            && w'.events == w.events + [Moved(u, o.client.value, o.bytesIn - o.repIn, o.bytesOut - o.repOut)]
            && w'.ruleIn == w.ruleIn && w'.ruleOut == w.ruleOut && w'.pend == w.pend && w'.total == w.total
  {
    assert ObjOk(w, w.sessions[u]);
  }

  lemma ReportField(w: World, u: Ufrag, w': World, e: Event, f: Field)
    requires FieldOk(w, f) && u in w.sessions && w.sessions[u] < |w.objs| && e.Moved?
    requires var o := w.objs[w.sessions[u]];
             && w'.objs == w.objs[w.sessions[u] := o.(repIn := o.bytesIn, repOut := o.bytesOut)]
             && e.din == o.bytesIn - o.repIn && e.dout == o.bytesOut - o.repOut
    requires w'.events == w.events + [e] && w'.ruleIn == w.ruleIn && w'.ruleOut == w.ruleOut && w'.pend == w.pend
    ensures FieldOk(w', f)
  {
    var o := w.objs[w.sessions[u]];
    var o' := o.(repIn := o.bytesIn, repOut := o.bytesOut);
    ReportedAppend(w.events, e, f);
    assert Booked(w', f) - Booked(w, f) == Get(o', f) - Get(o, f);
    FieldAfter(w, w', w.sessions[u], o', f);
  }

  lemma ReportConserves(w: World, u: Ufrag)
    requires Inv(w) && Conserved(w) && u in w.sessions && w.sessions[u] < |w.objs|
    ensures Conserved(ReportOne(w, u))
  {
    var w' := ReportOne(w, u);
    if w' != w {
      ReportShape(w, u);
      var e := w'.events[|w.events|];
      forall f ensures FieldOk(w', f) { assert FieldOk(w, f); ReportField(w, u, w', e, f); }
      ReportedAppend(w.events, e, In);
    }
  }

  // ---------------------------------------------------------------- runs

  datatype Act =
    | Register(u: Ufrag, now: int)
    | Packet(a: Addr, n: nat, stun: Option<Ufrag>, now: int, bindOk: bool, sentOk: bool)
    | Reply(i: nat, n: nat)
    | ReplyCounted(k: nat)
    | ReplySeen(i: nat, now: int)
    | Cleanup(stale: seq<Ufrag>, now: int)
    | Report(order: seq<Ufrag>)
    | Stop(order: seq<Ufrag>)

  const IDLE := 60

  ghost predicate Enumerates(order: seq<Ufrag>, s: set<Ufrag>) {
    NoDup(order) && forall u :: u in order <==> u in s
  }

  ghost predicate Enabled(w: World, a: Act) {
    match a
    case Reply(i, n) => i < |w.objs| && w.objs[i].client.Some?
    case ReplyCounted(k) => k < |w.pend|
    case ReplySeen(i, _) => i < |w.objs|
    case Cleanup(stale, now) => Enumerates(stale, StaleSet(w, now))
    case Report(order) => Enumerates(order, w.sessions.Keys)
    case Stop(order) => Enumerates(order, w.sessions.Keys)
    case _ => true
  }

  function StaleSet(w: World, now: int): set<Ufrag> {
    set u | u in w.sessions && w.sessions[u] < |w.objs| && now - w.objs[w.sessions[u]].seen > IDLE
  }

  predicate Known(w: World, u: Ufrag) { u in w.sessions && w.sessions[u] < |w.objs| }

  /** The loops visit the listed sessions one after the other. */
  function EndAll(w: World, order: seq<Ufrag>): World
    decreases |order|
  {
    if order == [] then w
    else EndAll(if Known(w, order[0]) then End(w, order[0]) else w, order[1..])
  }

  function ReportAll(w: World, order: seq<Ufrag>): World
    decreases |order|
  {
    if order == [] then w
    else ReportAll(if Known(w, order[0]) then ReportOne(w, order[0]) else w, order[1..])
  }

  function Deliver(w: World, a: Act): World
    requires a.Packet?
  {
    if a.n < 20 then w
    else if a.a in w.addrMap && w.addrMap[a.a] < |w.objs| then
      var i := w.addrMap[a.a];
      Forward(w.(objs := w.objs[i := w.objs[i].(seen := a.now)]), i, a.n, a.bindOk, a.sentOk)
    else if a.stun.Some? && Known(w, a.stun.value) && !w.objs[w.sessions[a.stun.value]].learned then
      var w1 := Learn(w, a.stun.value, a.a, a.now);
      Forward(w1, w.sessions[a.stun.value], a.n, a.bindOk, a.sentOk)
    else w
  }

  function Replace(w: World, u: Ufrag, now: int): World {
    Add(if Known(w, u) then End(w, u) else w, u, now)
  }

  function Next(w: World, a: Act): World {
    match a
    case Register(u, now) => Replace(w, u, now)
    case Packet(_, _, _, _, _, _) => Deliver(w, a)
    case Reply(i, n) =>
      if i < |w.objs| then w.(objs := w.objs[i := w.objs[i].(bytesOut := w.objs[i].bytesOut + n)], pend := w.pend + [n]) else w
    case ReplyCounted(k) =>
      if k < |w.pend| then w.(ruleOut := w.ruleOut + w.pend[k], pend := w.pend[..k] + w.pend[k + 1..]) else w
    case ReplySeen(i, now) => if i < |w.objs| then w.(objs := w.objs[i := w.objs[i].(seen := now)]) else w
    case Cleanup(stale, _) => EndAll(w, stale)
    case Report(order) => ReportAll(w, order)
    case Stop(order) => if w.stopped then w else EndAll(w, order).(stopped := true)
  }

  lemma {:induction false} EndAllKeeps(w: World, order: seq<Ufrag>)
    requires Inv(w) && Conserved(w)
    ensures Inv(EndAll(w, order)) && Conserved(EndAll(w, order))
    ensures EndAll(w, order).sessions.Keys == w.sessions.Keys - (set u | u in order)
    decreases |order|
  {
    if order != [] {
      assert SessOk(w, order[0]);
      if Known(w, order[0]) {
        EndKeeps(w, order[0]);
        EndConserves(w, order[0]);
        EndAllKeeps(End(w, order[0]), order[1..]);
      } else {
        EndAllKeeps(w, order[1..]);
      }
      assert (set u | u in order) == {order[0]} + (set u | u in order[1..]);
    }
  }

  lemma {:induction false} ReportAllKeeps(w: World, order: seq<Ufrag>)
    requires Inv(w) && Conserved(w)
    ensures Inv(ReportAll(w, order)) && Conserved(ReportAll(w, order))
    ensures ReportAll(w, order).sessions == w.sessions
    decreases |order|
  {
    if order != [] {
      if Known(w, order[0]) {
        ReportKeeps(w, order[0]);
        ReportConserves(w, order[0]);
        ReportAllKeeps(ReportOne(w, order[0]), order[1..]);
      } else {
        ReportAllKeeps(w, order[1..]);
      }
    }
  }

  lemma ForwardKeeps(w: World, i: nat, n: nat, bindOk: bool, sentOk: bool)
    requires Inv(w) && Conserved(w) && Live(w, i) && w.objs[i].learned
    ensures Inv(Forward(w, i, n, bindOk, sentOk)) && Conserved(Forward(w, i, n, bindOk, sentOk))
  {
    assert SessOk(w, w.objs[i].ufrag);
    TweakKeeps(w, Forward(w, i, n, bindOk, sentOk), i);
    ForwardConserves(w, i, n, bindOk, sentOk);
  }

  lemma SeenKeeps(w: World, i: nat, now: int)
    requires Inv(w) && Conserved(w) && i < |w.objs|
    ensures var w' := w.(objs := w.objs[i := w.objs[i].(seen := now)]); Inv(w') && Conserved(w')
  {
    var w' := w.(objs := w.objs[i := w.objs[i].(seen := now)]);
    assert ObjOk(w, i);
    TweakKeeps(w, w', i);
    forall f ensures FieldOk(w', f) {
      assert FieldOk(w, f);
      FieldAfter(w, w', i, w'.objs[i], f);
    }
  }

  lemma DeliverKeeps(w: World, a: Act)
    requires Inv(w) && Conserved(w) && a.Packet?
    ensures Inv(Deliver(w, a)) && Conserved(Deliver(w, a))
  {
    assert AddrOk(w, a.a);
    if a.n >= 20 {
      if a.a in w.addrMap {
        var i := w.addrMap[a.a];
        assert SessOk(w, w.objs[i].ufrag);
        SeenKeeps(w, i, a.now);
        ForwardKeeps(w.(objs := w.objs[i := w.objs[i].(seen := a.now)]), i, a.n, a.bindOk, a.sentOk);
      } else if a.stun.Some? && Known(w, a.stun.value) && !w.objs[w.sessions[a.stun.value]].learned {
        var u := a.stun.value;
        assert SessOk(w, u);
        LearnKeeps(w, u, a.a, a.now);
        LearnConserves(w, u, a.a, a.now);
        ForwardKeeps(Learn(w, u, a.a, a.now), w.sessions[u], a.n, a.bindOk, a.sentOk);
      }
    }
  }

  lemma ReplyKeeps(w: World, i: nat, n: nat)
    requires Inv(w) && Conserved(w) && i < |w.objs| && w.objs[i].client.Some?
    ensures Inv(Next(w, Reply(i, n))) && Conserved(Next(w, Reply(i, n)))
  {
    var w' := Next(w, Reply(i, n));
    assert ObjOk(w, i);
    TweakKeeps(w, w', i);
    SumAppend(w.pend, n);
    forall f ensures FieldOk(w', f) {
      assert FieldOk(w, f);
      FieldAfter(w, w', i, w'.objs[i], f);
    }
  }

  lemma CountedKeeps(w: World, k: nat)
    requires Inv(w) && Conserved(w) && k < |w.pend|
    ensures Inv(Next(w, ReplyCounted(k))) && Conserved(Next(w, ReplyCounted(k)))
  {
    var w' := Next(w, ReplyCounted(k));
    SumRemove(w.pend, k);
    forall f ensures FieldOk(w', f) { assert FieldOk(w, f); }
    forall v ensures SessOk(w', v) { assert SessOk(w, v); }
    forall b ensures AddrOk(w', b) { assert AddrOk(w, b); }
    forall i: nat ensures ObjOk(w', i) { assert ObjOk(w, i); }
  }

  lemma StopKeeps(w: World, order: seq<Ufrag>)
    requires Inv(w) && Conserved(w)
    ensures Inv(Next(w, Stop(order))) && Conserved(Next(w, Stop(order)))
  {
    EndAllKeeps(w, order);
    var v, w' := EndAll(w, order), Next(w, Stop(order));
    forall f ensures FieldOk(w', f) { assert FieldOk(v, f) && FieldOk(w, f); }
    forall u ensures SessOk(w', u) { assert SessOk(v, u) && SessOk(w, u); }
    forall b ensures AddrOk(w', b) { assert AddrOk(v, b) && AddrOk(w, b); }
    forall i: nat ensures ObjOk(w', i) { assert ObjOk(v, i) && ObjOk(w, i); }
  }

  lemma StepKeeps(w: World, a: Act)
    requires Inv(w) && Conserved(w) && Enabled(w, a)
    ensures Inv(Next(w, a)) && Conserved(Next(w, a))
  {
    match a
    case Register(u, now) =>
      assert SessOk(w, u);
      if Known(w, u) {
        EndKeeps(w, u);
        EndConserves(w, u);
        AddKeeps(End(w, u), u, now);
        AddConserves(End(w, u), u, now);
      } else {
        AddKeeps(w, u, now);
        AddConserves(w, u, now);
      }
    case Packet(_, _, _, _, _, _) => DeliverKeeps(w, a);
    case Reply(i, n) => ReplyKeeps(w, i, n);
    case ReplyCounted(k) => CountedKeeps(w, k);
    case ReplySeen(i, now) => SeenKeeps(w, i, now);
    case Cleanup(stale, _) => EndAllKeeps(w, stale);
    case Report(order) => ReportAllKeeps(w, order);
    case Stop(order) => StopKeeps(w, order);
  }

  ghost predicate Run(ws: seq<World>, acts: seq<Act>) {
    && |ws| == |acts| + 1 && ws[0] == Start
    && forall i {:trigger acts[i]} | 0 <= i < |acts| :: Step(ws[i], acts[i], ws[i + 1])
  }

  ghost predicate Step(w: World, a: Act, w': World) {
    Enabled(w, a) && w' == Next(w, a)
  }

  /** Over every run: the bijection, the pairing of events, the registry's agreement and the byte
      conservation all hold at every moment. */
  lemma {:induction false} RunKeeps(ws: seq<World>, acts: seq<Act>, n: nat)
    requires Run(ws, acts) && n <= |acts|
    ensures Inv(ws[n]) && Conserved(ws[n])
    decreases n
  {
    if n == 0 {
      forall u ensures SessOk(Start, u) {}
      forall f ensures FieldOk(Start, f) {}
    } else {
      RunKeeps(ws, acts, n - 1);
      assert Step(ws[n - 1], acts[n - 1], ws[n]);
      StepKeeps(ws[n - 1], acts[n - 1]);
    }
  }

  /** What the shared session registry shows, at every moment of every run: an address is registered
      exactly while some session is open there, and its entry carries exactly what that session has
      reported; for a session that has nothing unreported, exactly its traffic. */
  lemma RegistryFollows(ws: seq<World>, acts: seq<Act>, n: nat, a: Addr)
    requires Run(ws, acts) && n <= |acts|
    ensures var w := ws[n];
            && (a in w.table <==> exists u :: At(w, u, a))
            && forall u | At(w, u, a) ::
                 var o := w.objs[w.sessions[u]];
                 && a in w.table && w.table[a] < |w.infoObjs| && w.infoObjs[w.table[a]] == Info(a, o.repIn, o.repOut)
                 && 0 <= o.repIn <= o.bytesIn && 0 <= o.repOut <= o.bytesOut
  {
    RunKeeps(ws, acts, n);
    var w := ws[n];
    InvGivesBijection(w, a);
    forall u | At(w, u, a)
      ensures var o := w.objs[w.sessions[u]];
              && a in w.table && w.table[a] < |w.infoObjs| && w.infoObjs[w.table[a]] == Info(a, o.repIn, o.repOut)
              && 0 <= o.repIn <= o.bytesIn && 0 <= o.repOut <= o.bytesOut
    {
      assert SessOk(w, u) && ObjOk(w, w.sessions[u]);
    }
  }
}
