/** The registry object: each method is one critical section under `r.mu`, written the way the
    source writes it and proved to be the corresponding step of `TupleSpec`. */
module TupleRegistry {
  import opened Prelude
  import opened TupleSpec
  import opened TupleDeaths

  class Registry {
    var entries: map<Key, EntryId>
    var objs: map<EntryId, Entry>
    var handles: map<HandleId, Handle>
    var closed: bool
    var nextEntry: nat
    var nextHandle: nat
    /** The kernel's open sockets, and where each creating goroutine is. */
    ghost var open: set<EntryId>
    ghost var creators: map<EntryId, Creator>

    ghost function View(): Reg
      reads this
    {
      Reg(entries, objs, handles, creators, open, closed)
    }

    /** What every method keeps on any registry; what only some keep is `Inv`. */
    ghost predicate Valid()
      reads this
    {
      && Held(View())
      && (forall e | e in objs :: e.n < nextEntry)
      && (forall h | h in handles :: h.n < nextHandle)
    }

    constructor ()
      ensures Valid() && View() == Init && Inv(View()) && Anchored(View())
    {
      entries, objs, handles, closed := map[], map[], map[], false;
      nextEntry, nextHandle, open, creators := 0, 0, {}, map[];
    }

    method AcquireLocked(k: Key, f: FwdId) returns (out: Outcome)
      requires Valid()
      modifies this
      ensures Valid()
      ensures k in old(entries) ==> old(entries)[k] in old(objs)
      ensures (View(), out) == AcquireCheck(old(View()), k, f, EntryId(old(nextEntry)), HandleId(old(nextHandle)))
      ensures AcquireAnswers(old(View()), k, f, View(), out)
      ensures old(Inv(View())) ==> Inv(View()) && (old(Anchored(View())) ==> Anchored(View()))
    {
      ghost var r := View();
      var e, h := EntryId(nextEntry), HandleId(nextHandle);
      assert k in entries ==> KeyInv(r, k);
      CheckHeld(r, k, f, e, h);
      if Inv(r) { CheckKeepsInv(r, k, f, e, h); }
      if k in entries {
        var x := entries[k];
        if objs[x].creating {
          return Wait(x);
        }
        Join(x, f);
        return Got(h);
      }
      if closed {
        return Failed;
      }
      Reserve(k, f);
      return MustBind(e);
    }

    /** One more handle on a committed entry. */
    method Join(x: EntryId, f: FwdId)
      requires x in objs
      modifies this`objs, this`handles, this`nextHandle
      ensures View() == TakeRef(old(View()), x, HandleId(old(nextHandle)), f) && nextHandle == old(nextHandle) + 1
    {
      objs := objs[x := objs[x].(refs := objs[x].refs + 1)];
      handles := handles[HandleId(nextHandle) := Handle(x, f, None, false)];
      nextHandle := nextHandle + 1;
    }

    /** A placeholder for a tuple nobody has. */
    method Reserve(k: Key, f: FwdId)
      modifies this`objs, this`entries, this`creators, this`nextEntry
      ensures var e := EntryId(old(nextEntry));
              && objs == old(objs)[e := Entry(k, 0, map[], true, 0)] && entries == old(entries)[k := e]
              && creators == old(creators)[e := Creator(f, Binding)] && nextEntry == old(nextEntry) + 1
    {
      var e := EntryId(nextEntry);
      objs := objs[e := Entry(k, 0, map[], true, 0)];
      entries := entries[k := e];
      creators := creators[e := Creator(f, Binding)];
      nextEntry := nextEntry + 1;
    }

    /** The bind system call returned. */
    ghost method Bound(e: EntryId, ok: bool)
      requires Valid() && Enabled(View(), ABind(e, ok))
      modifies this`creators, this`open
      ensures Valid() && View() == BindReturns(old(View()), e, ok)
      ensures old(Inv(View())) ==> Inv(View()) && (old(Anchored(View())) ==> Anchored(View()))
    {
      BindHeld(View(), e, ok);
      if Inv(View()) { BindKeepsInv(View(), e, ok); }
      open := if ok then open + {e} else open;
      creators := creators[e := creators[e].(phase := Phase.Bound(ok))];
    }

    method CommitLocked(e: EntryId, f: FwdId, ok: bool) returns (out: Outcome)
      requires Valid() && e in objs && e in creators && creators[e] == Creator(f, Phase.Bound(ok))
      modifies this
      ensures Valid()
      ensures (View(), out) == Commit(old(View()), e, HandleId(old(nextHandle)))
      ensures CommitAnswers(old(View()), e, f, ok, View(), out)
      ensures old(Inv(View())) ==> Inv(View()) && (old(Anchored(View())) ==> Anchored(View()))
    {
      var h, k := HandleId(nextHandle), objs[e].key;
      CommitContract(View(), e, h);
      var ours := k in entries && entries[k] == e;
      if ok && !closed && ours {
        TakeFirst(e, f, h);
        return Got(h);
      }
      if ours {
        entries := entries - {k};
        objs := objs[e := objs[e].(readyClosed := objs[e].readyClosed + 1)];
      }
      if ok {
        creators := creators[e := Creator(f, Closing)];
        return MustClose(e);
      }
      creators := creators - {e};
      return Failed;
    }

    /** The commit itself: the placeholder becomes an entry with one reference. */
    method TakeFirst(e: EntryId, f: FwdId, h: HandleId)
      requires e in objs && e in creators && h == HandleId(nextHandle)
      modifies this`objs, this`handles, this`creators, this`nextHandle
      ensures objs == old(objs)[e := old(objs)[e].(creating := false, refs := old(objs)[e].refs + 1, readyClosed := old(objs)[e].readyClosed + 1)]
      ensures handles == old(handles)[h := Handle(e, f, None, false)] && creators == old(creators) - {e}
      ensures nextHandle == old(nextHandle) + 1
    {
      objs := objs[e := objs[e].(creating := false, refs := objs[e].refs + 1, readyClosed := objs[e].readyClosed + 1)];
      handles := handles[h := Handle(e, f, None, false)];
      creators := creators - {e};
      nextHandle := nextHandle + 1;
    }

    /** `append(list[:i], list[i+1:]...)` at the first match. */
    static method RemoveFirst(list: seq<HandleId>, h: HandleId) returns (rest: seq<HandleId>)
      ensures rest == Without(list, h)
    {
      var i := 0;
      while i < |list| && list[i] != h
        invariant 0 <= i <= |list| && h !in list[..i]
      {
        i := i + 1;
      }
      WithoutAt(list, h, i);
      return if i < |list| then list[..i] + list[i + 1..] else list;
    }

    method AttachLocked(h: HandleId, b: Backend)
      requires Valid() && Enabled(View(), AAttach(h, b))
      modifies this`handles, this`objs
      ensures Valid() && View() == Attach(old(View()), h, b)
      ensures old(Inv(View())) ==> Inv(View()) && (old(Anchored(View())) ==> Anchored(View()))
    {
      AttachHeld(View(), h, b);
      if Inv(View()) { AttachKeepsInv(View(), h, b); }
      var e := handles[h].entry;
      var list := if b in objs[e].subs then objs[e].subs[b] else [];
      handles := handles[h := handles[h].(sub := Some(b))];
      objs := objs[e := objs[e].(subs := objs[e].subs[b := list + [h]])];
    }

    /** The source's `release`: the last reference closes the socket and deletes by key.  The
        registry's invariant survives exactly when the key has not passed to another entry. */
    method ReleaseLocked(h: HandleId)
      requires Valid() && Enabled(View(), ARelease(h))
      modifies this
      ensures Valid() && View() == Release(old(View()), h, false)
      ensures old(handles)[h].released ==> View() == old(View())
      ensures !old(handles)[h].released ==> HandedBack(old(View()), View(), h)
      ensures old(Inv(View())) ==> (Inv(View()) <==> old(NotStale(View(), h)))
      ensures old(Inv(View()) && Anchored(View())) ==> Inv(View()) && Anchored(View())
    {
      ReleaseContract(View(), h);
      if handles[h].released {
        return;
      }
      var e := handles[h].entry;
      var subs := Unsubscribed(h);
      handles := handles[h := handles[h].(released := true, sub := None)];
      objs := objs[e := objs[e].(refs := objs[e].refs - 1, subs := subs)];
      if objs[e].refs == 0 {
        open := open - {e};
        entries := entries - {objs[e].key};
      }
    }

    /** The entry's subscription lists without this handle's own subscription. */
    method Unsubscribed(h: HandleId) returns (subs: map<Backend, seq<HandleId>>)
      requires h in handles && handles[h].entry in objs
      ensures subs == Detach(objs[handles[h].entry].subs, handles[h].sub, h)
    {
      var sub := handles[h].sub;
      subs := objs[handles[h].entry].subs;
      if sub.Some? && sub.value in subs {
        var rest := RemoveFirst(subs[sub.value], h);
        subs := if rest == [] then subs - {sub.value} else subs[sub.value := rest];
      }
    }

    method DropDeadEntry(e: EntryId)
      requires Valid() && Enabled(View(), ADropDead(e))
      modifies this`entries, this`open
      ensures Valid() && View() == DropDead(old(View()), e) && (old(Inv(View())) ==> Inv(View()))
      ensures forall k :: k in entries <==> k in old(entries) && old(entries)[k] != e
      ensures forall x :: x in open <==> x in old(open) && !(x == e && objs[e].key in old(entries) && old(entries)[objs[e].key] == e)
    {
      DropDeadHeld(View(), e);
      forall k | k in entries && entries[k] == e ensures k == objs[e].key { assert KeyInv(View(), k); }
      if Inv(View()) { DropDeadKeepsInv(View(), e); }
      var k := objs[e].key;
      if k in entries && entries[k] == e {
        open := open - {e};
        entries := entries - {k};
      }
    }

    /** `deliver`'s snapshot: every handle on this entry that is subscribed to the backend and not yet
        released, once each, and no other. */
    method Subscribers(e: EntryId, b: Backend) returns (subs: seq<HandleId>)
      requires Valid() && e in objs
      ensures NoDup(subs)
      ensures forall h :: h in subs <==>
                h in handles && handles[h].entry == e && handles[h].sub == Some(b) && !handles[h].released
    {
      assert SubInv(View(), e, b);
      assert forall h | h in handles :: HandleInv(View(), h);
      subs := if b in objs[e].subs then objs[e].subs[b] else [];
    }

    /** `Close`: idempotent; walks the table, withdrawing placeholders and closing the rest. */
    method Close()
      requires Valid()
      modifies this
      ensures Valid() && View() == CloseAll(old(View())) && (old(Inv(View())) ==> Inv(View()))
      ensures closed && entries == map[] && handles == old(handles)
      ensures forall x :: x in open <==> x in old(open) && !(old(IsCurrent(View(), x)) && !old(objs)[x].creating)
    {
      CloseHeld(View());
      if Inv(View()) { CloseKeepsInv(View()); }
      if !closed {
        ghost var r := View();
        closed := true;
        Sweep(r);
      }
    }

    /** The loop of `Close` over the table. */
    method Sweep(ghost r: Reg)
      requires Held(r) && !r.closed && View() == r.(closed := true)
      modifies this`entries, this`objs, this`open
      ensures View() == CloseAll(r)
    {
      CloseStart(r);
      while entries != map[]
        invariant closed && handles == r.handles && creators == r.creators
        invariant entries.Keys <= r.entries.Keys && forall k | k in entries :: entries[k] == r.entries[k]
        invariant objs == ObjsAfter(r, entries.Keys) && open == OpenAfter(r, entries.Keys)
        decreases entries.Keys
      {
        var k :| k in entries;
        CloseOne(r, entries.Keys, k);
        ghost var left := entries.Keys - {k};
        CloseEntry(k);
        assert entries.Keys == left;
      }
      CloseDone(r);
      assert entries.Keys == {};
    }

    /** One entry of that loop. */
    method CloseEntry(k: Key)
      requires k in entries && entries[k] in objs
      modifies this`entries, this`objs, this`open
      ensures var e, was := old(entries[k]), old(objs);
              && entries == old(entries) - {k}
              && objs == (if was[e].creating then was[e := was[e].(readyClosed := was[e].readyClosed + 1)] else was)
              && open == if was[e].creating then old(open) else old(open) - {e}
    {
      var e := entries[k];
      if objs[e].creating {
        objs := objs[e := objs[e].(readyClosed := objs[e].readyClosed + 1)];
      } else {
        open := open - {e};
      }
      entries := entries - {k};
    }
  }

  lemma CommitContract(r: Reg, e: EntryId, h: HandleId)
    requires Held(r) && Enabled(r, ACommit(e, h))
    ensures Held(Commit(r, e, h).0)
    ensures CommitAnswers(r, e, r.creators[e].fwd, r.creators[e].phase.ok, Commit(r, e, h).0, Commit(r, e, h).1)
    ensures Inv(r) ==> Inv(Commit(r, e, h).0) && (Anchored(r) ==> Anchored(Commit(r, e, h).0))
  {
    CommitHeld(r, e, h);
    CommitSays(r, e, h);
    if Inv(r) {
      CommitKeepsInv(r, e, h);
      if Anchored(r) { CommitKeepsAnchors(r, e, h); }
    }
  }

  lemma ReleaseContract(r: Reg, h: HandleId)
    requires Held(r) && Enabled(r, ARelease(h))
    ensures Held(Release(r, h, false))
    ensures !r.handles[h].released ==> HandedBack(r, Release(r, h, false), h)
    ensures Inv(r) ==> (Inv(Release(r, h, false)) <==> NotStale(r, h))
    ensures Inv(r) && Anchored(r) ==> NotStale(r, h) && Anchored(Release(r, h, false))
  {
    ReleaseHeld(r, h, false);
    if !r.handles[h].released { ReleaseSays(r, h); }
    if Inv(r) {
      ReleaseKeepsInvIff(r, h);
      if Anchored(r) { ReleaseKeepsInv(r, h, false); }
    }
  }

  /** `e` was in the table of `r` and its key is no longer among `left`. */
  ghost predicate Dropped(r: Reg, left: set<Key>, e: EntryId) {
    IsCurrent(r, e) && r.objs[e].key !in left
  }

  ghost function ObjsAfter(r: Reg, left: set<Key>): map<EntryId, Entry> {
    map e | e in r.objs ::
      if Dropped(r, left, e) && r.objs[e].creating
      then r.objs[e].(readyClosed := r.objs[e].readyClosed + 1) else r.objs[e]
  }

  ghost function OpenAfter(r: Reg, left: set<Key>): set<EntryId> {
    set e | e in r.open && !(Dropped(r, left, e) && !r.objs[e].creating)
  }

  lemma CloseStart(r: Reg)
    requires Held(r)
    ensures ObjsAfter(r, r.entries.Keys) == r.objs && OpenAfter(r, r.entries.Keys) == r.open
  {
  }

  lemma CloseOne(r: Reg, left: set<Key>, k: Key)
    requires Held(r) && k in left && left <= r.entries.Keys
    ensures r.entries[k] in ObjsAfter(r, left)
    ensures var e := r.entries[k];
            && ObjsAfter(r, left)[e] == r.objs[e]
            && ObjsAfter(r, left - {k}) ==
                 (if r.objs[e].creating
                  then ObjsAfter(r, left)[e := r.objs[e].(readyClosed := r.objs[e].readyClosed + 1)]
                  else ObjsAfter(r, left))
            && OpenAfter(r, left - {k}) == if r.objs[e].creating then OpenAfter(r, left) else OpenAfter(r, left) - {e}
  {
    var e := r.entries[k];
    assert KeyInv(r, k);
    assert forall y | y in r.objs && y != e :: Dropped(r, left - {k}, y) == Dropped(r, left, y);
  }

  lemma CloseDone(r: Reg)
    requires Held(r) && !r.closed
    ensures ObjsAfter(r, {}) == CloseAll(r).objs && OpenAfter(r, {}) == CloseAll(r).open
  {
  }
}
