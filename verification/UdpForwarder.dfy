/** UDP forwarders on top of the shared player-socket registry (internal/forward/udp.go).

    A `World` is the registry together with any number of forwarders and of in-flight `forward`
    calls.  A call holds a handle between `acquire` and the second look under `f.mu` (`hand`), and
    between losing that second look and `discardUpstream` (`doomed`).  `Stop` and the cleanup tick
    hold `f.mu` while they retire sessions one by one; other forwarders, and the registry's own
    critical sections, interleave with them freely. */
module UdpSpec {
  import opened Prelude
  import opened TupleSpec
  import opened TupleDeaths

  datatype Lock = Free | StopLoop | CleanLoop
  datatype Fwd = Fwd(target: Backend, sessions: map<Key, HandleId>, stopping: bool, stopped: bool,
                     lock: Lock, active: int, total: nat)
  datatype World = World(reg: Reg, fwds: map<FwdId, Fwd>, hand: set<HandleId>, doomed: set<HandleId>)

  datatype WAction =
    | WCheck(f: FwdId, k: Key, e: EntryId, h: HandleId)
    | WBind(e: EntryId, ok: bool)
    | WCommit(e: EntryId, h: HandleId)
    | WCloseConn(e: EntryId)
    | WSettle(h: HandleId)
    | WDiscard(h: HandleId)
    | WStopSignal(f: FwdId)
    | WStopLock(f: FwdId)
    | WStopUnlock(f: FwdId)
    | WCleanLock(f: FwdId)
    | WCleanUnlock(f: FwdId)
    | WRetire(f: FwdId, k: Key)
    | WDropDead(e: EntryId)
    | WClose

  /** The registry step inside a world step, if there is one. */
  function RegStep(w: World, a: WAction): Option<Action>
    requires a.WSettle? ==> a.h in w.reg.handles && w.reg.handles[a.h].entry in w.reg.objs && w.reg.handles[a.h].fwd in w.fwds
    requires a.WRetire? ==> a.f in w.fwds && a.k in w.fwds[a.f].sessions
  {
    match a
    case WCheck(f, k, e, h) => Some(ACheck(k, f, e, h))
    case WBind(e, ok) => Some(ABind(e, ok))
    case WCommit(e, h) => Some(ACommit(e, h))
    case WCloseConn(e) => Some(ACloseConn(e))
    case WSettle(h) => if Wins(w, h) then Some(AAttach(h, w.fwds[w.reg.handles[h].fwd].target)) else None
    case WDiscard(h) => Some(ARelease(h))
    case WRetire(f, k) => Some(ARelease(w.fwds[f].sessions[k]))
    case WDropDead(e) => Some(ADropDead(e))
    case WClose => Some(AClose)
    case _ => None
  }

  function KeyOf(r: Reg, h: HandleId): Key
    requires h in r.handles && r.handles[h].entry in r.objs
  {
    r.objs[r.handles[h].entry].key
  }

  /** The second look under `f.mu`: nobody created the session meanwhile and `Stop` has not begun. */
  predicate Wins(w: World, h: HandleId)
    requires h in w.reg.handles && w.reg.handles[h].entry in w.reg.objs && w.reg.handles[h].fwd in w.fwds
  {
    var f := w.fwds[w.reg.handles[h].fwd];
    KeyOf(w.reg, h) !in f.sessions && !f.stopping
  }

  predicate WEnabled(w: World, a: WAction) {
    && (a.WSettle? ==>
          && a.h in w.hand && a.h in w.reg.handles && w.reg.handles[a.h].entry in w.reg.objs
          && w.reg.handles[a.h].fwd in w.fwds && w.fwds[w.reg.handles[a.h].fwd].lock == Free)
    && (a.WDiscard? ==> a.h in w.doomed)
    && (a.WCheck? || a.WStopSignal? || a.WStopLock? || a.WStopUnlock? || a.WCleanLock? || a.WCleanUnlock? || a.WRetire?
        ==> a.f in w.fwds)
    && (a.WStopLock? ==> w.fwds[a.f].stopping && !w.fwds[a.f].stopped && w.fwds[a.f].lock == Free)
    && (a.WStopUnlock? ==> w.fwds[a.f].lock == StopLoop && w.fwds[a.f].sessions == map[])
    && (a.WCleanLock? ==> w.fwds[a.f].lock == Free)
    && (a.WCleanUnlock? ==> w.fwds[a.f].lock == CleanLoop)
    && (a.WRetire? ==> w.fwds[a.f].lock != Free && a.k in w.fwds[a.f].sessions)
    && (RegStep(w, a).Some? ==> Enabled(w.reg, RegStep(w, a).value))
  }

  function WNext(w: World, a: WAction, guarded: bool): World
    requires WEnabled(w, a)
  {
    var reg := if RegStep(w, a).Some? then Next(w.reg, RegStep(w, a).value, guarded) else w.reg;
    match a
    case WCheck(f, k, e, h) =>
      w.(reg := reg, hand := if AcquireCheck(w.reg, k, f, e, h).1.Got? then w.hand + {h} else w.hand)
    case WCommit(e, h) =>
      w.(reg := reg, hand := if Commit(w.reg, e, h).1.Got? then w.hand + {h} else w.hand)
    case WSettle(h) =>
      if Wins(w, h) then
        var f := w.reg.handles[h].fwd;
        var fw := w.fwds[f];
        w.(reg := reg, hand := w.hand - {h},
           fwds := w.fwds[f := fw.(sessions := fw.sessions[KeyOf(w.reg, h) := h],
                                   active := fw.active + 1, total := fw.total + 1)])
      else w.(hand := w.hand - {h}, doomed := w.doomed + {h})
    case WDiscard(h) => w.(reg := reg, doomed := w.doomed - {h})
    case WStopSignal(f) => w.(fwds := w.fwds[f := w.fwds[f].(stopping := true)])
    case WStopLock(f) => w.(fwds := w.fwds[f := w.fwds[f].(lock := StopLoop)])
    case WStopUnlock(f) => w.(fwds := w.fwds[f := w.fwds[f].(lock := Free, active := 0, stopped := true)])
    case WCleanLock(f) => w.(fwds := w.fwds[f := w.fwds[f].(lock := CleanLoop)])
    case WCleanUnlock(f) => w.(fwds := w.fwds[f := w.fwds[f].(lock := Free)])
    case WRetire(f, k) =>
      var fw := w.fwds[f];
      w.(reg := reg,
         fwds := w.fwds[f := fw.(sessions := fw.sessions - {k},
                                 active := if fw.lock.CleanLoop? then fw.active - 1 else fw.active)])
    case _ => w.(reg := reg)
  }

  // ---------------------------------------------------------------- invariants

  /** `h` is the handle of a live session. */
  ghost predicate InSession(w: World, h: HandleId) {
    && h in w.reg.handles && w.reg.handles[h].entry in w.reg.objs && w.reg.handles[h].fwd in w.fwds
    && KeyOf(w.reg, h) in w.fwds[w.reg.handles[h].fwd].sessions
    && w.fwds[w.reg.handles[h].fwd].sessions[KeyOf(w.reg, h)] == h
  }

  /** Every unreleased handle is in exactly one place, and only a session subscribes. */
  ghost predicate HolderInv(w: World, h: HandleId)
    requires h in w.reg.handles
  {
    var hd := w.reg.handles[h];
    && hd.fwd in w.fwds
    && (h in w.hand ==> h !in w.doomed && !InSession(w, h))
    && (h in w.doomed ==> !InSession(w, h))
    && (hd.released <==> h !in w.hand && h !in w.doomed && !InSession(w, h))
    && hd.sub == if InSession(w, h) then Some(w.fwds[hd.fwd].target) else None
  }

  ghost predicate SessInv(w: World, f: FwdId, k: Key)
    requires f in w.fwds && k in w.fwds[f].sessions
  {
    var h := w.fwds[f].sessions[k];
    h in w.reg.handles && w.reg.handles[h].fwd == f && w.reg.handles[h].entry in w.reg.objs && KeyOf(w.reg, h) == k
  }

  ghost predicate FwdInv(w: World, f: FwdId)
    requires f in w.fwds
  {
    var fw := w.fwds[f];
    && (fw.lock != StopLoop ==> fw.active == |fw.sessions|)
    && (fw.lock == StopLoop ==> fw.stopping && !fw.stopped)
    && (fw.stopped ==> fw.stopping && fw.sessions == map[])
  }

  /** What every run keeps, dead sockets and stale releases included. */
  ghost predicate WHeld(w: World) {
    && Held(w.reg)
    && w.hand <= w.reg.handles.Keys && w.doomed <= w.reg.handles.Keys
    && (forall e {:trigger w.reg.creators[e]} | e in w.reg.creators :: w.reg.creators[e].fwd in w.fwds)
    && (forall h {:trigger HolderInv(w, h)} | h in w.reg.handles :: HolderInv(w, h))
    && (forall f, k {:trigger SessInv(w, f, k)} | f in w.fwds && k in w.fwds[f].sessions :: SessInv(w, f, k))
    && (forall f {:trigger FwdInv(w, f)} | f in w.fwds :: FwdInv(w, f))
  }

  ghost predicate WInv(w: World) { WHeld(w) && Inv(w.reg) }

  // ---------------------------------------------------------------- preservation

  /** What a registry step leaves alone: existing keys, and existing handles' owners. */
  ghost predicate RegFrame(r: Reg, r': Reg) {
    && (forall e {:trigger e in r'.objs} {:trigger r.objs[e]} | e in r.objs :: e in r'.objs && r'.objs[e].key == r.objs[e].key)
    && (forall h {:trigger h in r'.handles} {:trigger r.handles[h]} | h in r.handles ::
          h in r'.handles && r'.handles[h].entry == r.handles[h].entry && r'.handles[h].fwd == r.handles[h].fwd)
  }

  lemma StepFrames(r: Reg, a: Action, guarded: bool)
    requires Enabled(r, a)
    ensures RegFrame(r, Next(r, a, guarded))
  {
    match a
    case ACheck(k, f, e, h) => CheckFrames(r, k, f, e, h);
    case ACommit(e, h) => CommitFrames(r, e, h);
    case ARelease(h) => ReleaseFrames(r, h, guarded);
    case AAttach(h, b) => AttachFrames(r, h, b);
    case _ =>
  }

  lemma CheckFrames(r: Reg, k: Key, f: FwdId, e: EntryId, h: HandleId)
    requires Enabled(r, ACheck(k, f, e, h))
    ensures RegFrame(r, AcquireCheck(r, k, f, e, h).0)
  {
  }

  lemma CommitFrames(r: Reg, e: EntryId, h: HandleId)
    requires Enabled(r, ACommit(e, h))
    ensures RegFrame(r, Commit(r, e, h).0)
  {
  }

  lemma ReleaseFrames(r: Reg, h: HandleId, guarded: bool)
    requires Enabled(r, ARelease(h))
    ensures RegFrame(r, Release(r, h, guarded))
  {
  }

  lemma AttachFrames(r: Reg, h: HandleId, b: Backend)
    requires Enabled(r, AAttach(h, b))
    ensures RegFrame(r, Attach(r, h, b))
  {
  }

  /** The forwarder that a registry step newly names, if any. */
  lemma StepCreators(r: Reg, a: Action, guarded: bool)
    requires Enabled(r, a)
    ensures forall e | e in Next(r, a, guarded).creators ::
              || (e in r.creators && Next(r, a, guarded).creators[e].fwd == r.creators[e].fwd)
              || (a.ACheck? && Next(r, a, guarded).creators[e].fwd == a.f)
  {
  }

  /** Steps that change no handle: bind, late close, dead socket, close, and the lock steps. */
  lemma QuietStep(w: World, w': World)
    requires WHeld(w) && Held(w'.reg) && RegFrame(w.reg, w'.reg)
    requires w'.reg.handles == w.reg.handles && w'.hand == w.hand && w'.doomed == w.doomed
    requires w'.fwds.Keys == w.fwds.Keys
    requires forall e | e in w'.reg.creators :: w'.reg.creators[e].fwd in w.fwds
    requires forall f | f in w.fwds ::
               w'.fwds[f].sessions == w.fwds[f].sessions && w'.fwds[f].target == w.fwds[f].target && FwdInv(w', f)
    ensures WHeld(w')
  {
    forall h | h in w'.reg.handles ensures HolderInv(w', h) {
      assert HolderInv(w, h) && HandleInv(w.reg, h);
      assert InSession(w', h) == InSession(w, h);
    }
    forall f, k | f in w'.fwds && k in w'.fwds[f].sessions ensures SessInv(w', f, k) {
      assert SessInv(w, f, k) && HandleInv(w.reg, w.fwds[f].sessions[k]);
    }
  }

  /** `acquire` returned handle `h` to an in-flight call. */
  lemma GotHandle(w: World, w': World, h: HandleId)
    requires WHeld(w) && Held(w'.reg) && RegFrame(w.reg, w'.reg)
    requires h !in w.reg.handles && h in w'.reg.handles && w'.reg.handles[h].fwd in w.fwds
    requires w'.reg.handles[h].sub == None && !w'.reg.handles[h].released
    requires w'.reg.handles == w.reg.handles[h := w'.reg.handles[h]]
    requires w'.hand == w.hand + {h} && w'.doomed == w.doomed && w'.fwds == w.fwds
    requires forall e | e in w'.reg.creators :: w'.reg.creators[e].fwd in w.fwds
    ensures WHeld(w')
  {
    assert HandleInv(w'.reg, h);
    assert !InSession(w', h) by {
      assert forall f, k | f in w.fwds && k in w.fwds[f].sessions :: SessInv(w, f, k);
    }
    forall x | x in w'.reg.handles ensures HolderInv(w', x) {
      if x != h {
        assert HolderInv(w, x) && HandleInv(w.reg, x);
        assert InSession(w', x) == InSession(w, x);
      }
    }
    forall f, k | f in w'.fwds && k in w'.fwds[f].sessions ensures SessInv(w', f, k) { assert SessInv(w, f, k); }
    forall f | f in w'.fwds ensures FwdInv(w', f) { assert FwdInv(w, f); }
  }

  /** The call found the session already there, or the forwarder stopping. */
  lemma SettleLoses(w: World, h: HandleId, guarded: bool)
    requires WHeld(w) && WEnabled(w, WSettle(h)) && !Wins(w, h)
    ensures var w' := WNext(w, WSettle(h), guarded);
            WHeld(w') && (WInv(w) ==> WInv(w')) && !InSession(w', h) && h !in w'.hand && h in w'.doomed
  {
    var w' := WNext(w, WSettle(h), guarded);
    forall x | x in w'.reg.handles ensures HolderInv(w', x) {
      assert HolderInv(w, x) && InSession(w', x) == InSession(w, x);
    }
    forall f, k | f in w'.fwds && k in w'.fwds[f].sessions ensures SessInv(w', f, k) { assert SessInv(w, f, k); }
    forall f | f in w'.fwds ensures FwdInv(w', f) { assert FwdInv(w, f); }
  }

  /** The call's handle becomes the session's handle. */
  lemma SettleWins(w: World, h: HandleId, guarded: bool)
    requires WHeld(w) && WEnabled(w, WSettle(h)) && Wins(w, h)
    ensures var w' := WNext(w, WSettle(h), guarded);
            WHeld(w') && (WInv(w) ==> WInv(w')) && InSession(w', h) && h !in w'.hand && h !in w'.doomed
  {
    var w' := WNext(w, WSettle(h), guarded);
    var f0, k0 := w.reg.handles[h].fwd, KeyOf(w.reg, h);
    AttachHeld(w.reg, h, w.fwds[f0].target);
    if Inv(w.reg) { AttachKeepsInv(w.reg, h, w.fwds[f0].target); }
    forall x | x in w'.reg.handles ensures HolderInv(w', x) { SettleWinsHolder(w, h, guarded, x); }
    forall f, k | f in w'.fwds && k in w'.fwds[f].sessions ensures SessInv(w', f, k) {
      assert (f != f0 || k != k0) ==> SessInv(w, f, k) && HandleInv(w.reg, w.fwds[f].sessions[k]);
    }
    forall f | f in w'.fwds ensures FwdInv(w', f) { assert FwdInv(w, f); }
  }

  lemma SettleWinsHolder(w: World, h: HandleId, guarded: bool, x: HandleId)
    requires WHeld(w) && WEnabled(w, WSettle(h)) && Wins(w, h) && x in w.reg.handles
    ensures x in WNext(w, WSettle(h), guarded).reg.handles && HolderInv(WNext(w, WSettle(h), guarded), x)
  {
    var w' := WNext(w, WSettle(h), guarded);
    assert HolderInv(w, x) && HolderInv(w, h) && HandleInv(w.reg, x);
    assert InSession(w', x) == (x == h || InSession(w, x));
  }

  /** Releasing a handle that nothing else refers to any more: a discard or a retired session. */
  lemma HandleReleased(w: World, w': World, h: HandleId)
    requires WHeld(w) && Held(w'.reg) && RegFrame(w.reg, w'.reg)
    requires h in w.reg.handles && !w.reg.handles[h].released
    requires w'.reg.handles == w.reg.handles[h := w.reg.handles[h].(released := true, sub := None)]
    requires w'.reg.creators == w.reg.creators && w'.fwds.Keys == w.fwds.Keys
    requires w'.hand == w.hand && h !in w'.hand && w'.doomed == w.doomed - {h}
    requires forall f, k | f in w.fwds && k in w'.fwds[f].sessions ::
               k in w.fwds[f].sessions && w'.fwds[f].sessions[k] == w.fwds[f].sessions[k] && w.fwds[f].sessions[k] != h
    requires forall f, k | f in w.fwds && k in w.fwds[f].sessions && w.fwds[f].sessions[k] != h :: k in w'.fwds[f].sessions
    requires forall f | f in w.fwds :: w'.fwds[f].target == w.fwds[f].target && FwdInv(w', f)
    ensures WHeld(w')
  {
    forall x | x in w'.reg.handles ensures HolderInv(w', x) {
      assert HolderInv(w, x) && HandleInv(w.reg, x);
      assert InSession(w', x) == (x != h && InSession(w, x));
    }
    forall f, k | f in w'.fwds && k in w'.fwds[f].sessions ensures SessInv(w', f, k) { assert SessInv(w, f, k); }
  }

  lemma ReleaseShape(r: Reg, h: HandleId, guarded: bool)
    requires Enabled(r, ARelease(h)) && !r.handles[h].released
    ensures var r' := Next(r, ARelease(h), guarded);
            && RegFrame(r, r') && r'.creators == r.creators
            && r'.handles == r.handles[h := r.handles[h].(released := true, sub := None)]
  {
    ReleaseFrames(r, h, guarded);
  }

  lemma DiscardKeeps(w: World, w': World, h: HandleId, reg': Reg)
    requires WHeld(w) && h in w.doomed && Held(reg') && RegFrame(w.reg, reg') && reg'.creators == w.reg.creators
    requires h in w.reg.handles && reg'.handles == w.reg.handles[h := w.reg.handles[h].(released := true, sub := None)]
    requires w' == World(reg', w.fwds, w.hand, w.doomed - {h})
    ensures WHeld(w')
  {
    assert HolderInv(w, h);
    forall f, k | f in w.fwds && k in w.fwds[f].sessions ensures w.fwds[f].sessions[k] != h { assert SessInv(w, f, k); }
    forall f | f in w.fwds ensures FwdInv(w', f) { assert FwdInv(w, f); }
    HandleReleased(w, w', h);
  }

  lemma RetireKeeps(w: World, w': World, f0: FwdId, k0: Key, reg': Reg)
    requires WHeld(w) && f0 in w.fwds && k0 in w.fwds[f0].sessions && w.fwds[f0].lock != Free
    requires Held(reg') && RegFrame(w.reg, reg') && reg'.creators == w.reg.creators
    requires var h := w.fwds[f0].sessions[k0];
             h in w.reg.handles && reg'.handles == w.reg.handles[h := w.reg.handles[h].(released := true, sub := None)]
    requires var fw := w.fwds[f0];
             w' == w.(reg := reg', fwds := w.fwds[f0 := fw.(sessions := fw.sessions - {k0},
                        active := if fw.lock.CleanLoop? then fw.active - 1 else fw.active)])
    ensures WHeld(w')
  {
    var h := w.fwds[f0].sessions[k0];
    assert SessInv(w, f0, k0) && HolderInv(w, h) && InSession(w, h);
    forall f, k | f in w.fwds && k in w.fwds[f].sessions && w.fwds[f].sessions[k] == h ensures f == f0 && k == k0 {
      assert SessInv(w, f, k);
    }
    forall f | f in w.fwds ensures FwdInv(w', f) { RetireFwd(w, w', f0, k0, f); }
    HandleReleased(w, w', h);
  }

  lemma RetireFwd(w: World, w': World, f0: FwdId, k0: Key, f: FwdId)
    requires WHeld(w) && f0 in w.fwds && k0 in w.fwds[f0].sessions && w.fwds[f0].lock != Free && f in w.fwds
    requires var fw := w.fwds[f0];
             w'.fwds == w.fwds[f0 := fw.(sessions := fw.sessions - {k0},
                          active := if fw.lock.CleanLoop? then fw.active - 1 else fw.active)]
    ensures FwdInv(w', f)
  {
    assert FwdInv(w, f);
  }

  /** A handle that is being discarded or retired has not been released before. */
  lemma HeldIsUnreleased(w: World, h: HandleId)
    requires WHeld(w) && h in w.reg.handles && (h in w.doomed || InSession(w, h))
    ensures !w.reg.handles[h].released
  {
    assert HolderInv(w, h);
  }

  lemma WReleaseKeeps(w: World, a: WAction, guarded: bool)
    requires WHeld(w) && WEnabled(w, a) && (a.WDiscard? || a.WRetire?)
    requires Held(WNext(w, a, guarded).reg)
    ensures WHeld(WNext(w, a, guarded))
  {
    var h := if a.WDiscard? then a.h else w.fwds[a.f].sessions[a.k];
    assert a.WRetire? ==> SessInv(w, a.f, a.k);
    HeldIsUnreleased(w, h);
    ReleaseShape(w.reg, h, guarded);
    if a.WDiscard? { DiscardKeeps(w, WNext(w, a, guarded), h, Next(w.reg, ARelease(h), guarded)); }
    else { RetireKeeps(w, WNext(w, a, guarded), a.f, a.k, Next(w.reg, ARelease(h), guarded)); }
  }

  lemma WRegSteps(w: World, a: WAction, guarded: bool)
    requires WHeld(w) && WEnabled(w, a) && RegStep(w, a).Some?
    ensures Held(WNext(w, a, guarded).reg) && RegFrame(w.reg, WNext(w, a, guarded).reg)
    ensures forall e | e in WNext(w, a, guarded).reg.creators :: WNext(w, a, guarded).reg.creators[e].fwd in w.fwds
  {
    var ra := RegStep(w, a).value;
    StepHeld(w.reg, ra, guarded);
    StepFrames(w.reg, ra, guarded);
    StepCreators(w.reg, ra, guarded);
  }

  /** Which of the two a successful check or commit was, as far as the world can tell. */
  lemma AcquireShape(w: World, a: WAction, guarded: bool)
    requires WHeld(w) && WEnabled(w, a) && (a.WCheck? || a.WCommit?)
    ensures var w' := WNext(w, a, guarded);
            && w'.fwds == w.fwds && w'.doomed == w.doomed
            && if w'.hand == w.hand then w'.reg.handles == w.reg.handles
               else && w'.hand == w.hand + {a.h} && a.h !in w.reg.handles && a.h in w'.reg.handles
                    && w'.reg.handles[a.h].fwd in w.fwds && w'.reg.handles[a.h].sub == None && !w'.reg.handles[a.h].released
                    && w'.reg.handles == w.reg.handles[a.h := w'.reg.handles[a.h]]
  {
    assert a.WCheck? && a.k in w.reg.entries ==> KeyInv(w.reg, a.k);
    assert a.WCommit? && a.e in w.reg.creators ==> w.reg.creators[a.e].fwd in w.fwds;
    assert a.h !in w.hand;
  }

  lemma WAcquireKeeps(w: World, a: WAction, guarded: bool)
    requires WHeld(w) && WEnabled(w, a) && (a.WCheck? || a.WCommit?)
    ensures WHeld(WNext(w, a, guarded))
  {
    var w' := WNext(w, a, guarded);
    WRegSteps(w, a, guarded);
    AcquireShape(w, a, guarded);
    if w'.hand == w.hand { QuietFwds(w, w'); QuietStep(w, w'); } else { GotHandle(w, w', a.h); }
  }

  lemma WStepHeld(w: World, a: WAction, guarded: bool)
    requires WHeld(w) && WEnabled(w, a)
    ensures WHeld(WNext(w, a, guarded))
  {
    if RegStep(w, a).Some? { WRegSteps(w, a, guarded); }
    match a
    case WSettle(h) => if Wins(w, h) { SettleWins(w, h, guarded); } else { SettleLoses(w, h, guarded); }
    case WDiscard(_) => WReleaseKeeps(w, a, guarded);
    case WRetire(_, _) => WReleaseKeeps(w, a, guarded);
    case WCheck(_, _, _, _) => WAcquireKeeps(w, a, guarded);
    case WCommit(_, _) => WAcquireKeeps(w, a, guarded);
    case _ => WQuietKeeps(w, a, guarded);
  }

  lemma WQuietKeeps(w: World, a: WAction, guarded: bool)
    requires WHeld(w) && WEnabled(w, a)
    requires !a.WSettle? && !a.WDiscard? && !a.WRetire? && !a.WCheck? && !a.WCommit?
    ensures WHeld(WNext(w, a, guarded))
  {
    if RegStep(w, a).Some? { WQuietReg(w, a, guarded); } else { WQuietLock(w, a, guarded); }
  }

  lemma QuietShape(w: World, a: WAction, guarded: bool)
    requires WHeld(w) && WEnabled(w, a)
    requires a.WBind? || a.WCloseConn? || a.WDropDead? || a.WClose?
    ensures var w' := WNext(w, a, guarded);
            w'.reg.handles == w.reg.handles && w'.fwds == w.fwds && w'.hand == w.hand && w'.doomed == w.doomed
  {
  }

  lemma WQuietReg(w: World, a: WAction, guarded: bool)
    requires WHeld(w) && WEnabled(w, a)
    requires a.WBind? || a.WCloseConn? || a.WDropDead? || a.WClose?
    ensures WHeld(WNext(w, a, guarded))
  {
    WRegSteps(w, a, guarded);
    QuietShape(w, a, guarded);
    SameFwds(w, WNext(w, a, guarded));
    QuietStep(w, WNext(w, a, guarded));
  }

  lemma SameFwds(w: World, w': World)
    requires WHeld(w) && w'.fwds == w.fwds
    ensures forall f | f in w.fwds :: FwdInv(w', f)
  {
    forall f | f in w.fwds ensures FwdInv(w', f) { assert FwdInv(w, f); }
  }

  lemma WQuietLock(w: World, a: WAction, guarded: bool)
    requires WHeld(w) && WEnabled(w, a)
    requires a.WStopSignal? || a.WStopLock? || a.WStopUnlock? || a.WCleanLock? || a.WCleanUnlock?
    ensures WHeld(WNext(w, a, guarded))
  {
    LockShape(w, a, guarded);
    LockMovesKeep(w, WNext(w, a, guarded));
  }

  lemma LockMovesKeep(w: World, w': World)
    requires WHeld(w) && w' == w.(fwds := w'.fwds) && w'.fwds.Keys == w.fwds.Keys
    requires forall f | f in w.fwds :: LockMove(w.fwds[f], w'.fwds[f])
    ensures WHeld(w')
  {
    QuietFwds(w, w');
    forall h | h in w'.reg.handles ensures HolderInv(w', h) { LockKeepsHolder(w, w', h); }
    forall f, k | f in w'.fwds && k in w'.fwds[f].sessions ensures SessInv(w', f, k) { assert SessInv(w, f, k); }
  }

  lemma LockKeepsHolder(w: World, w': World, h: HandleId)
    requires w' == w.(fwds := w'.fwds) && w'.fwds.Keys == w.fwds.Keys
    requires forall f | f in w.fwds :: LockMove(w.fwds[f], w'.fwds[f])
    requires h in w.reg.handles && HolderInv(w, h)
    ensures HolderInv(w', h)
  {
    assert InSession(w', h) == InSession(w, h);
  }

  /** What a lock step may do to a forwarder. */
  ghost predicate LockMove(was: Fwd, now: Fwd) {
    || now == was
    || now == was.(stopping := true)
    || (was.lock != StopLoop && now == was.(lock := CleanLoop))
    || (was.lock != StopLoop && now == was.(lock := Free))
    || (was.stopping && !was.stopped && now == was.(lock := StopLoop))
    || (was.lock == StopLoop && was.sessions == map[] && now == was.(lock := Free, active := 0, stopped := true))
  }

  lemma LockShape(w: World, a: WAction, guarded: bool)
    requires WEnabled(w, a)
    requires a.WStopSignal? || a.WStopLock? || a.WStopUnlock? || a.WCleanLock? || a.WCleanUnlock?
    ensures var w' := WNext(w, a, guarded);
            && w' == w.(fwds := w'.fwds) && w'.fwds.Keys == w.fwds.Keys
            && forall f | f in w.fwds :: LockMove(w.fwds[f], w'.fwds[f])
  {
  }

  /** The lock steps keep every forwarder's own accounting. */
  lemma QuietFwds(w: World, w': World)
    requires WHeld(w) && w'.fwds.Keys == w.fwds.Keys
    requires forall f | f in w.fwds :: LockMove(w.fwds[f], w'.fwds[f])
    ensures forall f | f in w.fwds :: FwdInv(w', f)
  {
    forall f | f in w.fwds ensures FwdInv(w', f) { assert FwdInv(w, f); }
  }

  lemma WStepKeepsInv(w: World, a: WAction, guarded: bool)
    requires WInv(w) && WEnabled(w, a)
    requires guarded || Anchored(w.reg)
    ensures WInv(WNext(w, a, guarded))
    ensures Anchored(w.reg) && !a.WDropDead? ==> Anchored(WNext(w, a, guarded).reg)
  {
    WStepHeld(w, a, guarded);
    if RegStep(w, a).Some? { StepKeepsInv(w.reg, RegStep(w, a).value, guarded); }
  }

  ghost predicate WRun(w: World, acts: seq<WAction>, guarded: bool, w': World)
    decreases |acts|
  {
    if acts == [] then w' == w
    else WEnabled(w, acts[0]) && WRun(WNext(w, acts[0], guarded), acts[1..], guarded, w')
  }

  lemma {:induction false} WRunKeepsInv(w: World, acts: seq<WAction>, guarded: bool, w': World)
    requires WInv(w) && WRun(w, acts, guarded, w')
    requires guarded || (Anchored(w.reg) && forall a | a in acts :: !a.WDropDead?)
    ensures WInv(w')
    ensures (Anchored(w.reg) && forall a | a in acts :: !a.WDropDead?) ==> Anchored(w'.reg)
    decreases |acts|
  {
    if acts != [] {
      WStepKeepsInv(w, acts[0], guarded);
      WRunKeepsInv(WNext(w, acts[0], guarded), acts[1..], guarded, w');
    }
  }

  /** Forwarders just built, nothing in flight. */
  ghost predicate Fresh(w: World) {
    && w.reg == Init && w.hand == {} && w.doomed == {}
    && forall f | f in w.fwds :: w.fwds[f] == Fwd(w.fwds[f].target, map[], false, false, Free, 0, 0)
  }

  lemma FreshInv(w: World)
    requires Fresh(w)
    ensures WInv(w) && Anchored(w.reg)
  {
    forall f | f in w.fwds ensures FwdInv(w, f) {}
  }

  // ---------------------------------------------------------------- what it is for

  /** A packet from backend `b` on entry `e` goes, once each, to exactly the live sessions on that
      entry whose rule targets `b`. */
  lemma DeliverReachesSessions(w: World, e: EntryId, b: Backend)
    requires WHeld(w) && e in w.reg.objs
    ensures NoDup(Deliver(w.reg, e, b))
    ensures forall h :: h in Deliver(w.reg, e, b) <==>
              InSession(w, h) && w.reg.handles[h].entry == e && w.fwds[w.reg.handles[h].fwd].target == b
  {
    assert SubInv(w.reg, e, b);
    forall h ensures h in Deliver(w.reg, e, b) <==>
        InSession(w, h) && w.reg.handles[h].entry == e && w.fwds[w.reg.handles[h].fwd].target == b
    {
      if h in w.reg.handles { assert HolderInv(w, h) && HandleInv(w.reg, h); }
    }
  }

  /** While no socket has died from outside and the registry is open, every rule with a session
      for player `k` that targets `b` is reached through the one shared socket of `k`. */
  lemma EverySessionIsReached(w: World, f: FwdId, k: Key)
    requires WInv(w) && Anchored(w.reg) && !w.reg.closed
    requires f in w.fwds && k in w.fwds[f].sessions
    ensures k in w.reg.entries && w.reg.entries[k] in w.reg.objs && w.reg.entries[k] in w.reg.open
    ensures w.fwds[f].sessions[k] in Deliver(w.reg, w.reg.entries[k], w.fwds[f].target)
  {
    var h := w.fwds[f].sessions[k];
    assert SessInv(w, f, k) && HolderInv(w, h) && HandleInv(w.reg, h);
    assert EntryInv(w.reg, w.reg.handles[h].entry);
    DeliverReachesSessions(w, w.reg.entries[k], w.fwds[f].target);
  }

  /** Once every forwarder has stopped and no call is in flight, nothing is held: every handle is
      released, the table is empty and no player socket is open. */
  lemma NothingHeldAfterStop(w: World)
    requires WHeld(w)
    requires forall f | f in w.fwds :: w.fwds[f].stopped
    requires w.hand == {} && w.doomed == {} && w.reg.creators == map[]
    ensures w.reg.entries == map[] && w.reg.open == {}
    ensures forall h | h in w.reg.handles :: w.reg.handles[h].released
    ensures forall f | f in w.fwds :: w.fwds[f].sessions == map[] && (w.fwds[f].lock == Free ==> w.fwds[f].active == 0)
  {
    forall f | f in w.fwds ensures w.fwds[f].sessions == map[] && w.fwds[f].lock != StopLoop { assert FwdInv(w, f); }
    forall h | h in w.reg.handles ensures w.reg.handles[h].released { assert HolderInv(w, h); }
    forall f | f in w.fwds ensures w.fwds[f].active == 0 { assert FwdInv(w, f); }
    HeldQuiescent(w.reg);
  }

  lemma {:induction false} WRunHeld(w: World, acts: seq<WAction>, guarded: bool, w': World)
    requires WHeld(w) && WRun(w, acts, guarded, w')
    ensures WHeld(w')
    decreases |acts|
  {
    if acts != [] {
      WStepHeld(w, acts[0], guarded);
      WRunHeld(WNext(w, acts[0], guarded), acts[1..], guarded, w');
    }
  }

  /** Over every run from a fresh world the accounting is right; and while no socket dies, or with the
      identity check, no player has two sockets. */
  lemma {:induction false} SessionsOverRuns(w0: World, acts: seq<WAction>, guarded: bool, w: World)
    requires Fresh(w0) && WRun(w0, acts, guarded, w)
    ensures (guarded || forall a | a in acts :: !a.WDropDead?) ==> OneSocketPerTuple(w.reg)
    ensures forall f | f in w.fwds && w.fwds[f].lock != StopLoop :: w.fwds[f].active == |w.fwds[f].sessions|
    ensures forall f | f in w.fwds && w.fwds[f].stopped :: w.fwds[f].sessions == map[]
    ensures forall h | h in w.reg.handles && !w.reg.handles[h].released :: h in w.hand || h in w.doomed || InSession(w, h)
  {
    FreshInv(w0);
    WRunHeld(w0, acts, guarded, w);
    if guarded || forall a | a in acts :: !a.WDropDead? {
      WRunKeepsInv(w0, acts, guarded, w);
      InvGivesOneSocket(w.reg);
    }
    assert forall f | f in w.fwds :: FwdInv(w, f);
    assert forall h | h in w.reg.handles :: HolderInv(w, h);
  }

  // ---------------------------------------------------------------- the code as it is, dead sockets included

  /** The step releases no last reference whose key another entry has taken. */
  ghost predicate WNotStale(w: World, a: WAction)
    requires WEnabled(w, a)
  {
    RegStep(w, a).Some? && RegStep(w, a).value.ARelease? ==> NotStale(w.reg, RegStep(w, a).value.h)
  }

  ghost predicate WPossible(w: World, acts: seq<WAction>)
    decreases |acts|
  {
    acts == [] || (WEnabled(w, acts[0]) && WPossible(WNext(w, acts[0], false), acts[1..]))
  }

  ghost predicate WNeverStale(w: World, acts: seq<WAction>)
    requires WPossible(w, acts)
    decreases |acts|
  {
    acts == [] || (WNotStale(w, acts[0]) && WNeverStale(WNext(w, acts[0], false), acts[1..]))
  }

  ghost predicate WAlwaysInv(w: World, acts: seq<WAction>)
    requires WPossible(w, acts)
    decreases |acts|
  {
    WInv(w) && (acts == [] || WAlwaysInv(WNext(w, acts[0], false), acts[1..]))
  }

  /** A release that is not stale deletes exactly what the guarded one would. */
  lemma NotStaleIsGuarded(w: World, a: WAction)
    requires WInv(w) && WEnabled(w, a) && WNotStale(w, a)
    ensures WNext(w, a, false) == WNext(w, a, true)
  {
    if RegStep(w, a).Some? {
      var ra := RegStep(w, a).value;
      if ra.ARelease? { assert DeletesAlike(w.reg, ra.h); }
      assert Next(w.reg, ra, false) == Next(w.reg, ra, true);
    }
  }

  lemma StaleBreaks(w: World, a: WAction)
    requires WInv(w) && WEnabled(w, a) && !WNotStale(w, a)
    ensures !Inv(WNext(w, a, false).reg)
  {
    ReleaseKeepsInvIff(w.reg, RegStep(w, a).value.h);
  }

  /** Forwarders, calls, ticks and stops over the code as it is, with any number of dead sockets: the
      invariant holds at every moment if and only if no release is stale. */
  lemma {:induction false} WRunKeepsInvIff(w: World, acts: seq<WAction>)
    requires WInv(w) && WPossible(w, acts)
    ensures WAlwaysInv(w, acts) <==> WNeverStale(w, acts)
    decreases |acts|
  {
    if acts != [] {
      if WNotStale(w, acts[0]) {
        NotStaleIsGuarded(w, acts[0]);
        WStepKeepsInv(w, acts[0], true);
        WRunKeepsInvIff(WNext(w, acts[0], false), acts[1..]);
      } else {
        StaleBreaks(w, acts[0]);
      }
    }
  }

  /** In every run of the code as it is, after all stops and settled calls nothing is held, however
      many sockets have died and whatever stale releases have taken out of the table meanwhile. */
  lemma NothingHeldDespiteDeaths(w0: World, acts: seq<WAction>, w: World)
    requires Fresh(w0) && WRun(w0, acts, false, w)
    requires forall f | f in w.fwds :: w.fwds[f].stopped
    requires w.hand == {} && w.doomed == {} && w.reg.creators == map[]
    ensures w.reg.entries == map[] && w.reg.open == {}
    ensures forall h | h in w.reg.handles :: w.reg.handles[h].released
    ensures forall f | f in w.fwds :: w.fwds[f].sessions == map[] && (w.fwds[f].lock == Free ==> w.fwds[f].active == 0)
  {
    FreshInv(w0);
    WRunHeld(w0, acts, false, w);
    NothingHeldAfterStop(w);
  }
}
