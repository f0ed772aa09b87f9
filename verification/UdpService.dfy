/** What a player gets from the forwarders (internal/forward/udp.go:324-403 over
    internal/forward/tuple_registry.go:100-214): a rule that has no session for a player yet opens the
    player's socket, or shares the one there is, and from then on is reached through it. */
module UdpService {
  import opened Prelude
  import opened TupleSpec
  import opened TupleDeaths
  import opened UdpSpec

  /** A call of `f` for player `k` is about to ask the registry, with identities not in use. */
  ghost predicate Calls(w: World, f: FwdId, k: Key, e: EntryId, h: HandleId) {
    && f in w.fwds && k !in w.fwds[f].sessions && !w.fwds[f].stopping && w.fwds[f].lock == Free
    && e !in w.reg.objs && h !in w.reg.handles
  }

  /** `h` is the session of `k` on `f`, and packets from the rule's target arrive there through entry `x`. */
  ghost predicate Served(w: World, f: FwdId, k: Key, h: HandleId, x: EntryId) {
    && f in w.fwds && k in w.fwds[f].sessions && w.fwds[f].sessions[k] == h
    && k in w.reg.entries && w.reg.entries[k] == x && x in w.reg.objs
    && h in Deliver(w.reg, x, w.fwds[f].target)
  }

  ghost predicate SharedEntry(w: World, k: Key) {
    k in w.reg.entries && w.reg.entries[k] in w.reg.objs && !w.reg.objs[w.reg.entries[k]].creating
  }

  /** The call took one more handle on the entry that was there. */
  lemma JoinsShared(w: World, f: FwdId, k: Key, e: EntryId, h: HandleId, guarded: bool)
    requires WHeld(w) && Calls(w, f, k, e, h) && SharedEntry(w, k)
    ensures WEnabled(w, WCheck(f, k, e, h))
    ensures var w1, x := WNext(w, WCheck(f, k, e, h), guarded), w.reg.entries[k];
            && WHeld(w1) && Joined(w.reg, w1.reg, x, h, f) && KeyOf(w1.reg, h) == k
            && w1.fwds == w.fwds && WEnabled(w1, WSettle(h)) && Wins(w1, h)
  {
    assert KeyInv(w.reg, k);
    WStepHeld(w, WCheck(f, k, e, h), guarded);
    JoinEnables(w, f, k, e, h, guarded);
  }

  lemma JoinEnables(w: World, f: FwdId, k: Key, e: EntryId, h: HandleId, guarded: bool)
    requires Calls(w, f, k, e, h) && SharedEntry(w, k) && w.reg.objs[w.reg.entries[k]].key == k
    requires WEnabled(w, WCheck(f, k, e, h))
    ensures var w1, x := WNext(w, WCheck(f, k, e, h), guarded), w.reg.entries[k];
            && Joined(w.reg, w1.reg, x, h, f) && KeyOf(w1.reg, h) == k
            && w1.fwds == w.fwds && WEnabled(w1, WSettle(h)) && Wins(w1, h)
  {
  }

  /** From every reachable state: a call for a player whose socket is in use by another rule, made by a
      rule without a session for that player, ends in a session on that very socket; and all rules that
      had the player on it keep it and are reached as well. */
  lemma SecondRuleShares(w0: World, acts: seq<WAction>, guarded: bool, w: World, f: FwdId, k: Key, e: EntryId, h: HandleId)
    requires Fresh(w0) && WRun(w0, acts, guarded, w) && Calls(w, f, k, e, h) && SharedEntry(w, k)
    ensures exists w' :: WRun(w0, acts + [WCheck(f, k, e, h), WSettle(h)], guarded, w') && Shared(w, w', f, k, h)
  {
    FreshInv(w0);
    WRunHeld(w0, acts, guarded, w);
    JoinsShared(w, f, k, e, h, guarded);
    var w1, x := WNext(w, WCheck(f, k, e, h), guarded), w.reg.entries[k];
    SettleServes(w1, h, x, guarded);
    var w2 := WNext(w1, WSettle(h), guarded);
    forall g | g in w.fwds && k in w.fwds[g].sessions && OnEntry(w, w.fwds[g].sessions[k], x)
      ensures Served(w2, g, k, w.fwds[g].sessions[k], x)
    {
      StaysServed(w1, h, x, guarded, g, k);
    }
    WRunTwo(w0, acts, guarded, w, WCheck(f, k, e, h), WSettle(h));
  }

  /** `f` serves `k` through the entry that was there, and so does still every rule that did. */
  ghost predicate Shared(w: World, w': World, f: FwdId, k: Key, h: HandleId)
    requires k in w.reg.entries
  {
    && Served(w', f, k, h, w.reg.entries[k]) && w'.reg.open == w.reg.open
    && forall g | g in w.fwds && k in w.fwds[g].sessions && OnEntry(w, w.fwds[g].sessions[k], w.reg.entries[k]) ::
         Served(w', g, k, w.fwds[g].sessions[k], w.reg.entries[k])
  }

  predicate OnEntry(w: World, h: HandleId, x: EntryId) { h in w.reg.handles && w.reg.handles[h].entry == x }

  /** The second look makes the handle the session. */
  lemma SettleServes(w: World, h: HandleId, x: EntryId, guarded: bool)
    requires WHeld(w) && WEnabled(w, WSettle(h)) && Wins(w, h) && w.reg.handles[h].entry == x
    requires KeyOf(w.reg, h) in w.reg.entries && w.reg.entries[KeyOf(w.reg, h)] == x
    ensures var w', f := WNext(w, WSettle(h), guarded), w.reg.handles[h].fwd;
            && WHeld(w') && Served(w', f, KeyOf(w.reg, h), h, x) && w'.reg.open == w.reg.open && w'.reg.entries == w.reg.entries
            && w'.fwds == w.fwds[f := w'.fwds[f]] && w'.fwds[f].target == w.fwds[f].target
            && w'.fwds[f].sessions == w.fwds[f].sessions[KeyOf(w.reg, h) := h]
  {
    var w' := WNext(w, WSettle(h), guarded);
    SettleWins(w, h, guarded);
    AttachFrames(w.reg, h, w.fwds[w.reg.handles[h].fwd].target);
    DeliverReachesSessions(w', x, w.fwds[w.reg.handles[h].fwd].target);
  }

  /** A session that was on the entry is on it still. */
  lemma StaysServed(w: World, h: HandleId, x: EntryId, guarded: bool, g: FwdId, k: Key)
    requires WHeld(w) && WEnabled(w, WSettle(h)) && Wins(w, h) && w.reg.handles[h].entry == x && KeyOf(w.reg, h) == k
    requires k in w.reg.entries && w.reg.entries[k] == x
    requires g in w.fwds && k in w.fwds[g].sessions && OnEntry(w, w.fwds[g].sessions[k], x)
    ensures Served(WNext(w, WSettle(h), guarded), g, k, w.fwds[g].sessions[k], x)
  {
    var w', i := WNext(w, WSettle(h), guarded), w.fwds[g].sessions[k];
    SettleServes(w, h, x, guarded);
    assert g != w.reg.handles[h].fwd;
    AttachFrames(w.reg, h, w.fwds[w.reg.handles[h].fwd].target);
    assert SessInv(w', g, k) && InSession(w', i);
    DeliverReachesSessions(w', x, w.fwds[g].target);
  }

  lemma {:induction false} WRunTwo(w0: World, acts: seq<WAction>, guarded: bool, w: World, a: WAction, b: WAction)
    requires WRun(w0, acts, guarded, w) && WEnabled(w, a) && WEnabled(WNext(w, a, guarded), b)
    ensures WRun(w0, acts + [a, b], guarded, WNext(WNext(w, a, guarded), b, guarded))
    decreases |acts|
  {
    if acts == [] {
      assert acts + [a, b] == [a, b] && [a, b][1..] == [b] && [b][1..] == [];
    } else {
      assert (acts + [a, b])[1..] == acts[1..] + [a, b];
      WRunTwo(WNext(w0, acts[0], guarded), acts[1..], guarded, w, a, b);
    }
  }

  // ---------------------------------------------------------------- the first rule

  /** Check, successful bind, commit and second look. */
  function Opening(f: FwdId, k: Key, e: EntryId, h: HandleId): (seq<WAction>, seq<WAction>) {
    ([WCheck(f, k, e, h), WBind(e, true)], [WCommit(e, h), WSettle(h)])
  }

  /** After check and bind the placeholder stands and its socket is open. */
  lemma Reserves(w: World, f: FwdId, k: Key, e: EntryId, h: HandleId, guarded: bool)
    requires WHeld(w) && Calls(w, f, k, e, h) && k !in w.reg.entries && !w.reg.closed
    ensures WEnabled(w, WCheck(f, k, e, h)) && WEnabled(WNext(w, WCheck(f, k, e, h), guarded), WBind(e, true))
    ensures var w2 := WNext(WNext(w, WCheck(f, k, e, h), guarded), WBind(e, true), guarded);
            && WHeld(w2) && w2.fwds == w.fwds && w2.reg.handles == w.reg.handles && !w2.reg.closed
            && e in w2.reg.objs && w2.reg.objs[e].key == k && IsCurrent(w2.reg, e) && e in w2.reg.open
            && e in w2.reg.creators && w2.reg.creators[e] == Creator(f, Bound(true))
  {
    WStepHeld(w, WCheck(f, k, e, h), guarded);
    WStepHeld(WNext(w, WCheck(f, k, e, h), guarded), WBind(e, true), guarded);
  }

  /** The commit turns it into an entry with the call's handle. */
  lemma Commits(w: World, f: FwdId, k: Key, e: EntryId, h: HandleId, guarded: bool)
    requires WHeld(w) && Calls(w.(reg := w.reg.(objs := w.reg.objs - {e})), f, k, e, h) && !w.reg.closed
    requires e in w.reg.objs && w.reg.objs[e].key == k && IsCurrent(w.reg, e) && e in w.reg.open
    requires e in w.reg.creators && w.reg.creators[e] == Creator(f, Bound(true))
    ensures WEnabled(w, WCommit(e, h))
    ensures var w' := WNext(w, WCommit(e, h), guarded);
            && WHeld(w') && w'.fwds == w.fwds && WEnabled(w', WSettle(h)) && Wins(w', h)
            && w'.reg.handles[h].entry == e && w'.reg.handles[h].fwd == f && KeyOf(w'.reg, h) == k
            && k in w'.reg.entries && w'.reg.entries[k] == e && w'.reg.open == w.reg.open
  {
    WStepHeld(w, WCommit(e, h), guarded);
  }

  /** From every reachable state of an open registry: a call for a player nobody serves, whose bind
      works, ends in a session on the player's own open socket. */
  lemma FirstRuleOpens(w0: World, acts: seq<WAction>, guarded: bool, w: World, f: FwdId, k: Key, e: EntryId, h: HandleId)
    requires Fresh(w0) && WRun(w0, acts, guarded, w)
    requires Calls(w, f, k, e, h) && k !in w.reg.entries && !w.reg.closed
    ensures exists w' :: WRun(w0, acts + Opening(f, k, e, h).0 + Opening(f, k, e, h).1, guarded, w')
                      && Served(w', f, k, h, e) && e in w'.reg.open
  {
    FreshInv(w0);
    WRunHeld(w0, acts, guarded, w);
    Reserves(w, f, k, e, h, guarded);
    var w2 := WNext(WNext(w, WCheck(f, k, e, h), guarded), WBind(e, true), guarded);
    Commits(w2, f, k, e, h, guarded);
    var w3 := WNext(w2, WCommit(e, h), guarded);
    SettleServes(w3, h, e, guarded);
    WRunTwo(w0, acts, guarded, w, WCheck(f, k, e, h), WBind(e, true));
    WRunTwo(w0, acts + Opening(f, k, e, h).0, guarded, w2, WCommit(e, h), WSettle(h));
  }
}
