/** The forwarder object: the second look of `getOrCreateSession`, the cleanup tick and `Stop`,
    over the session map and the shared registry, each run to the end by one goroutine.  How they
    interleave is `UdpSpec`'s subject. */
module UdpForwarder {
  import opened Prelude
  import opened TupleSpec
  import opened TupleDeaths
  import opened TupleRegistry
  import opened UdpSpec

  datatype Session = Session(h: HandleId, lastSeen: int)

  /** The handle table after releasing all of `gone`. */
  ghost function ReleaseMany(hs: map<HandleId, Handle>, gone: set<HandleId>): map<HandleId, Handle> {
    map h | h in hs :: if h in gone then hs[h].(released := true, sub := None) else hs[h]
  }

  /** The handles of the sessions of `ks`. */
  ghost function HandlesOf(s: map<Key, Session>, ks: set<Key>): set<HandleId> {
    set k | k in ks && k in s :: s[k].h
  }

  ghost function Expired(s: map<Key, Session>, now: int, timeout: int): set<Key> {
    set k | k in s && now - s[k].lastSeen > timeout
  }

  /** The handle of `k`'s session is unreleased, on `k`'s entry, and subscribed for our target. */
  ghost predicate FitsAt(r: Reg, id: FwdId, target: Backend, k: Key, h: HandleId) {
    && h in r.handles && r.handles[h].entry in r.objs && KeyOf(r, h) == k
    && r.handles[h] == Handle(r.handles[h].entry, id, Some(target), false)
  }

  ghost predicate Fits(r: Reg, id: FwdId, target: Backend, s: map<Key, Session>) {
    && Held(r)
    && forall k {:trigger FitsAt(r, id, target, k, s[k].h)} | k in s :: FitsAt(r, id, target, k, s[k].h)
  }

  /** No socket has died with handles out: the registry's full invariant, and every handle in place. */
  ghost predicate Intact(r: Reg) { Inv(r) && Anchored(r) }

  class Forwarder {
    const id: FwdId
    const target: Backend
    const timeout: int
    const reg: Registry
    var sessions: map<Key, Session>
    var stopping: bool
    var active: int
    var total: nat

    constructor (id: FwdId, target: Backend, timeout: int, reg: Registry)
      requires reg.Valid()
      ensures this.id == id && this.target == target && this.timeout == timeout && this.reg == reg
      ensures sessions == map[] && !stopping && active == 0 && total == 0 && Valid()
    {
      this.id, this.target, this.timeout, this.reg := id, target, timeout, reg;
      sessions, stopping, active, total := map[], false, 0, 0;
    }

    ghost predicate Linked()
      reads this, reg
    {
      reg.Valid() && Fits(reg.View(), id, target, sessions)
    }

    ghost predicate Valid()
      reads this, reg
    {
      Linked() && active == |sessions|
    }

    /** Second look under `f.mu` for a call that holds `h`: lose to an existing session or to
        `Stop` and give the handle back, or become the session. */
    method Settle(h: HandleId, k: Key, now: int) returns (created: bool)
      requires Valid() && FreshFor(reg.View(), id, k, h)
      modifies this`sessions, this`active, this`total, reg
      ensures Valid()
      ensures created <==> k !in old(sessions) && !stopping
      ensures created ==> sessions == old(sessions)[k := Session(h, now)] && total == old(total) + 1
      ensures created ==> reg.View() == Attach(old(reg.View()), h, target)
      ensures !created ==> reg.View() == Release(old(reg.View()), h, false) && total == old(total)
      ensures !created && k in old(sessions) ==> sessions == old(sessions)[k := old(sessions)[k].(lastSeen := now)]
      ensures !created && k !in old(sessions) ==> sessions == old(sessions)
      ensures old(Intact(reg.View())) ==> Intact(reg.View())
    {
      if k in sessions || stopping {
        GiveBack(h, k);
        if k in sessions {
          TouchFits(reg.View(), id, target, sessions, k, now);
          sessions := sessions[k := sessions[k].(lastSeen := now)];
        }
        return false;
      }
      Open(h, k, now);
      return true;
    }

    /** The handle becomes the session's: subscribe, enter, count. */
    method Open(h: HandleId, k: Key, now: int)
      requires Valid() && FreshFor(reg.View(), id, k, h) && k !in sessions
      modifies this`sessions, this`active, this`total, reg
      ensures Valid() && sessions == old(sessions)[k := Session(h, now)] && total == old(total) + 1
      ensures reg.View() == Attach(old(reg.View()), h, target) && (old(Intact(reg.View())) ==> Intact(reg.View()))
    {
      AttachFits(reg.View(), id, target, sessions, h, k, now);
      reg.AttachLocked(h, target);
      sessions := sessions[k := Session(h, now)];
      active := active + 1;
      total := total + 1;
    }

    /** `discardUpstream`. */
    method GiveBack(h: HandleId, k: Key)
      requires Linked() && FreshFor(reg.View(), id, k, h)
      modifies reg
      ensures Linked() && reg.View() == Release(old(reg.View()), h, false)
      ensures old(Intact(reg.View())) ==> Intact(reg.View())
    {
      ReleaseFits(reg.View(), id, target, sessions, sessions, h);
      reg.ReleaseLocked(h);
    }

    /** `releaseUpstream` and the map delete for one session. */
    method Retire(k: Key)
      requires Linked() && k in sessions
      modifies this`sessions, reg
      ensures Linked() && sessions == old(sessions) - {k}
      ensures reg.handles == ReleaseMany(old(reg.handles), {old(sessions)[k].h})
      ensures old(Intact(reg.View())) ==> Intact(reg.View())
    {
      RetireFits(reg.View(), id, target, sessions, k);
      reg.ReleaseLocked(sessions[k].h);
      sessions := sessions - {k};
    }

    /** One cleanup tick: exactly the sessions idle for longer than the timeout go, and exactly
        their handles are released. */
    method CleanupTick(now: int)
      requires Valid()
      modifies this`sessions, this`active, reg
      ensures Valid()
      ensures sessions == old(sessions) - Expired(old(sessions), now, timeout)
      ensures forall k :: k in sessions <==> k in old(sessions) && now - old(sessions)[k].lastSeen <= timeout
      ensures forall k | k in old(sessions) :: old(sessions)[k].h in reg.handles
                && (reg.handles[old(sessions)[k].h].released <==> now - old(sessions)[k].lastSeen > timeout)
      ensures reg.handles == ReleaseMany(old(reg.handles), HandlesOf(old(sessions), Expired(old(sessions), now, timeout)))
      ensures old(Intact(reg.View())) ==> Intact(reg.View())
    {
      ghost var all, hs0 := sessions, reg.handles;
      ghost var idle := Expired(all, now, timeout);
      var todo := sessions.Keys;
      NoneGone(hs0, all, idle);
      while todo != {}
        invariant Valid() && todo <= all.Keys && sessions == all - (idle - todo)
        invariant reg.handles == ReleaseMany(hs0, HandlesOf(all, idle - todo))
        invariant old(Intact(reg.View())) ==> Intact(reg.View())
        decreases todo
      {
        var k :| k in todo;
        VisitOne(hs0, all, idle, todo, k);
        RetireIfIdle(k, now);
        todo := todo - {k};
      }
      assert idle - todo == idle;
      GoneIff(old(reg.View()), id, target, all, idle);
    }

    method RetireIfIdle(k: Key, now: int)
      requires Valid() && k in sessions
      modifies this`sessions, this`active, reg
      ensures Valid()
      ensures sessions == if now - old(sessions)[k].lastSeen > timeout then old(sessions) - {k} else old(sessions)
      ensures reg.handles == if now - old(sessions)[k].lastSeen > timeout
                             then ReleaseMany(old(reg.handles), {old(sessions)[k].h}) else old(reg.handles)
      ensures old(Intact(reg.View())) ==> Intact(reg.View())
    {
      if now - sessions[k].lastSeen > timeout {
        ghost var was := sessions;
        Retire(k);
        assert was.Keys == sessions.Keys + {k};
        active := active - 1;
      }
    }

    /** `Stop`: raise the flag, then release every session under the lock. */
    method Stop()
      requires Valid()
      modifies this`sessions, this`active, this`stopping, reg
      ensures Valid() && stopping && sessions == map[] && active == 0
      ensures forall k | k in old(sessions) :: old(sessions)[k].h in reg.handles && reg.handles[old(sessions)[k].h].released
      ensures reg.handles == ReleaseMany(old(reg.handles), HandlesOf(old(sessions), old(sessions).Keys))
      ensures old(Intact(reg.View())) ==> Intact(reg.View())
    {
      ghost var all, hs0, gone: set<Key> := sessions, reg.handles, {};
      stopping := true;
      NoneGone(hs0, all, {});
      while sessions != map[]
        invariant Linked() && stopping && gone <= all.Keys && sessions == all - gone
        invariant reg.handles == ReleaseMany(hs0, HandlesOf(all, gone))
        invariant old(Intact(reg.View())) ==> Intact(reg.View())
        decreases sessions.Keys
      {
        var k :| k in sessions;
        OneMoreGone(hs0, all, gone, k);
        Retire(k);
        gone := gone + {k};
      }
      assert gone == all.Keys by {
        assert forall k | k in all.Keys && k !in gone :: k in sessions;
      }
      active := 0;
      GoneIff(old(reg.View()), id, target, all, all.Keys);
    }
  }

  /** Different players have different handles, so exactly the chosen ones' are released. */
  lemma GoneIff(r: Reg, id: FwdId, target: Backend, s: map<Key, Session>, gone: set<Key>)
    requires Fits(r, id, target, s)
    ensures forall k | k in s :: s[k].h in r.handles && (ReleaseMany(r.handles, HandlesOf(s, gone))[s[k].h].released <==> k in gone)
  {
    forall k | k in s ensures s[k].h in r.handles && (s[k].h in HandlesOf(s, gone) <==> k in gone) && !r.handles[s[k].h].released {
      assert FitsAt(r, id, target, k, s[k].h);
      forall j | j in s && s[j].h == s[k].h ensures j == k { assert FitsAt(r, id, target, j, s[j].h); }
    }
  }

  lemma NoneGone(hs: map<HandleId, Handle>, all: map<Key, Session>, ks: set<Key>)
    requires ks <= all.Keys
    ensures ReleaseMany(hs, HandlesOf(all, ks - all.Keys)) == hs && all - (ks - all.Keys) == all
    ensures ReleaseMany(hs, HandlesOf(all, {})) == hs && all - {} == all
  {
    assert ks - all.Keys == {};
  }

  /** One step of the cleanup loop, on the ghost side. */
  lemma VisitOne(hs: map<HandleId, Handle>, all: map<Key, Session>, idle: set<Key>, todo: set<Key>, k: Key)
    requires k in todo && k in all
    ensures k in all - (idle - todo)
    ensures (if k in idle then (all - (idle - todo)) - {k} else all - (idle - todo)) == all - (idle - (todo - {k}))
    ensures (if k in idle then ReleaseMany(ReleaseMany(hs, HandlesOf(all, idle - todo)), {all[k].h})
             else ReleaseMany(hs, HandlesOf(all, idle - todo))) == ReleaseMany(hs, HandlesOf(all, idle - (todo - {k})))
  {
    assert idle - (todo - {k}) == if k in idle then (idle - todo) + {k} else idle - todo;
    OneMoreGone(hs, all, idle - todo, k);
  }

  lemma OneMoreGone(hs: map<HandleId, Handle>, all: map<Key, Session>, gone: set<Key>, k: Key)
    requires k in all && k !in gone
    ensures ReleaseMany(ReleaseMany(hs, HandlesOf(all, gone)), {all[k].h}) == ReleaseMany(hs, HandlesOf(all, gone + {k}))
    ensures (all - gone) - {k} == all - (gone + {k}) && |all - gone| == |all - (gone + {k})| + 1
  {
    assert HandlesOf(all, gone + {k}) == HandlesOf(all, gone) + {all[k].h};
    assert (all - gone).Keys == (all - (gone + {k})).Keys + {k};
  }

  /** A handle of ours on `k`'s entry that no session has subscribed. */
  ghost predicate FreshFor(r: Reg, id: FwdId, k: Key, h: HandleId) {
    && h in r.handles && r.handles[h].entry in r.objs && KeyOf(r, h) == k
    && r.handles[h] == Handle(r.handles[h].entry, id, None, false)
  }

  lemma ReleaseFits(r: Reg, id: FwdId, target: Backend, s: map<Key, Session>, s': map<Key, Session>, h: HandleId)
    requires Fits(r, id, target, s) && Enabled(r, ARelease(h)) && !r.handles[h].released
    requires forall k | k in s' :: k in s && s'[k] == s[k]
    requires r.handles[h].sub == None || forall k | k in s' :: s[k].h != h
    ensures Fits(Release(r, h, false), id, target, s')
    ensures Release(r, h, false).handles == ReleaseMany(r.handles, {h})
  {
    ReleaseHeld(r, h, false);
    ReleaseShape(r, h, false);
    var r' := Release(r, h, false);
    forall k | k in s' ensures FitsAt(r', id, target, k, s'[k].h) { assert FitsAt(r, id, target, k, s[k].h); }
  }

  lemma RetireFits(r: Reg, id: FwdId, target: Backend, s: map<Key, Session>, k: Key)
    requires Fits(r, id, target, s) && k in s
    ensures Enabled(r, ARelease(s[k].h)) && !r.handles[s[k].h].released
    ensures Fits(Release(r, s[k].h, false), id, target, s - {k})
    ensures Release(r, s[k].h, false).handles == ReleaseMany(r.handles, {s[k].h})
  {
    assert FitsAt(r, id, target, k, s[k].h);
    forall x | x in s - {k} ensures s[x].h != s[k].h { assert FitsAt(r, id, target, x, s[x].h); }
    ReleaseFits(r, id, target, s, s - {k}, s[k].h);
  }

  lemma TouchFits(r: Reg, id: FwdId, target: Backend, s: map<Key, Session>, k: Key, now: int)
    requires Fits(r, id, target, s) && k in s
    ensures Fits(r, id, target, s[k := s[k].(lastSeen := now)])
    ensures |s[k := s[k].(lastSeen := now)]| == |s|
  {
    var s' := s[k := s[k].(lastSeen := now)];
    assert s'.Keys == s.Keys;
    forall x | x in s' ensures FitsAt(r, id, target, x, s'[x].h) { assert FitsAt(r, id, target, x, s[x].h); }
  }

  lemma AttachFits(r: Reg, id: FwdId, target: Backend, s: map<Key, Session>, h: HandleId, k: Key, now: int)
    requires Fits(r, id, target, s) && FreshFor(r, id, k, h) && k !in s
    ensures Fits(Attach(r, h, target), id, target, s[k := Session(h, now)])
    ensures |s[k := Session(h, now)]| == |s| + 1
  {
    var r', s' := Attach(r, h, target), s[k := Session(h, now)];
    AttachHeld(r, h, target);
    assert s'.Keys == s.Keys + {k};
    forall x | x in s' ensures FitsAt(r', id, target, x, s'[x].h) {
      assert x != k ==> FitsAt(r, id, target, x, s[x].h);
    }
  }
}
