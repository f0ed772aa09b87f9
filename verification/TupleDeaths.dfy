/** What the shared registry (internal/forward/tuple_registry.go) keeps over every run, stale releases
    included.  After a socket has died from outside, a release that deletes by key can take a live
    entry out of the table, so two sockets may serve one tuple; but reference counts, subscriptions
    and the ownership of every open socket stay right, and so nothing is left open in the end. */
module TupleDeaths {
  import opened Prelude
  import opened TupleSpec

  /** An entry counts its live handles; its socket is open only while its creator is about to hand it
      on or close it, or while a handle holds it; its `ready` channel is never closed twice. */
  ghost predicate HeldInv(r: Reg, e: EntryId)
    requires e in r.objs
  {
    var en := r.objs[e];
    && en.refs == |Live(r, e)|
    && 0 <= en.readyClosed <= 1
    && (IsCurrent(r, e) && en.creating ==> en.readyClosed == 0 && e in r.creators && !r.creators[e].phase.Closing?)
    && (IsCurrent(r, e) && !en.creating ==> en.refs > 0)
    && (e in r.creators ==> en.creating)
    && (e in r.open ==>
          || (e in r.creators && r.creators[e].phase in {Bound(true), Closing})
          || (!en.creating && en.refs > 0))
  }

  ghost predicate Held(r: Reg) {
    TableOk(r) && HandlesOk(r) && forall e {:trigger HeldInv(r, e)} | e in r.objs :: HeldInv(r, e)
  }

  lemma InvIsHeld(r: Reg)
    requires Inv(r)
    ensures Held(r)
  {
    forall e | e in r.objs ensures HeldInv(r, e) { assert EntryInv(r, e); }
  }

  // ---------------------------------------------------------------- every step

  lemma JoinHeld(r: Reg, e: EntryId, h: HandleId, f: FwdId)
    requires Held(r) && e in r.objs && !r.objs[e].creating && h !in r.handles
    ensures Held(TakeRef(r, e, h, f))
  {
    var r' := TakeRef(r, e, h, f);
    NewHandle(r, r', e, h);
    forall k | k in r'.entries ensures KeyInv(r', k) { assert KeyInv(r, k); }
    forall y | y in r'.objs ensures HeldInv(r', y) { JoinHeldAt(r, e, h, f, y); }
  }

  lemma JoinHeldAt(r: Reg, e: EntryId, h: HandleId, f: FwdId, y: EntryId)
    requires Held(r) && e in r.objs && !r.objs[e].creating && h !in r.handles && y in r.objs
    requires |Live(TakeRef(r, e, h, f), e)| == |Live(r, e)| + 1
    requires y != e ==> Live(TakeRef(r, e, h, f), y) == Live(r, y)
    ensures HeldInv(TakeRef(r, e, h, f), y)
  {
    assert HeldInv(r, y) && IsCurrent(TakeRef(r, e, h, f), y) == IsCurrent(r, y);
  }

  lemma ReserveHeld(r: Reg, k: Key, f: FwdId, e: EntryId, h: HandleId)
    requires Held(r) && Enabled(r, ACheck(k, f, e, h)) && k !in r.entries && !r.closed
    ensures Held(AcquireCheck(r, k, f, e, h).0)
  {
    var r' := AcquireCheck(r, k, f, e, h).0;
    HandlesFrame(r, r');
    forall x | x in r'.entries ensures KeyInv(r', x) { assert x in r.entries ==> KeyInv(r, x); }
    forall y | y in r'.objs ensures HeldInv(r', y) { ReserveHeldAt(r, k, f, e, h, y); }
  }

  lemma ReserveHeldAt(r: Reg, k: Key, f: FwdId, e: EntryId, h: HandleId, y: EntryId)
    requires Held(r) && Enabled(r, ACheck(k, f, e, h)) && k !in r.entries && !r.closed
    requires y in r.objs || y == e
    ensures HeldInv(AcquireCheck(r, k, f, e, h).0, y)
  {
    var r' := AcquireCheck(r, k, f, e, h).0;
    if y == e {
      assert forall x | x in r.handles :: HandleInv(r, x);
      assert Live(r', e) == {};
    } else {
      assert HeldInv(r, y) && Live(r', y) == Live(r, y) && IsCurrent(r', y) == IsCurrent(r, y);
    }
  }

  lemma CheckHeld(r: Reg, k: Key, f: FwdId, e: EntryId, h: HandleId)
    requires Held(r) && Enabled(r, ACheck(k, f, e, h))
    ensures Held(AcquireCheck(r, k, f, e, h).0)
  {
    if k in r.entries {
      assert KeyInv(r, k);
      if !r.objs[r.entries[k]].creating { JoinHeld(r, r.entries[k], h, f); }
    } else if !r.closed {
      ReserveHeld(r, k, f, e, h);
    }
  }

  lemma BindHeld(r: Reg, e: EntryId, ok: bool)
    requires Held(r) && Enabled(r, ABind(e, ok))
    ensures Held(BindReturns(r, e, ok))
  {
    var r' := BindReturns(r, e, ok);
    HandlesFrame(r, r');
    forall k | k in r'.entries ensures KeyInv(r', k) { assert KeyInv(r, k); }
    forall y | y in r'.objs ensures HeldInv(r', y) { assert HeldInv(r, y) && IsCurrent(r', y) == IsCurrent(r, y); }
  }

  lemma CommitHeldAt(r: Reg, e: EntryId, h: HandleId, y: EntryId)
    requires Held(r) && Enabled(r, ACommit(e, h)) && y in r.objs
    requires var r' := Commit(r, e, h).0;
             |Live(r', y)| == |Live(r, y)| + if Commit(r, e, h).1.Got? && y == e then 1 else 0
    ensures HeldInv(Commit(r, e, h).0, y)
  {
    assert HeldInv(r, y) && HeldInv(r, e);
    assert IsCurrent(r, e) ==> KeyInv(r, r.objs[e].key);
    assert y != e ==> IsCurrent(Commit(r, e, h).0, y) == IsCurrent(r, y);
  }

  lemma CommitHeld(r: Reg, e: EntryId, h: HandleId)
    requires Held(r) && Enabled(r, ACommit(e, h))
    ensures Held(Commit(r, e, h).0)
  {
    var r' := Commit(r, e, h).0;
    assert HeldInv(r, e);
    CommitHandles(r, e, h);
    forall k | k in r'.entries ensures KeyInv(r', k) { assert KeyInv(r, k); }
    forall y | y in r'.objs ensures HeldInv(r', y) { CommitHeldAt(r, e, h, y); }
  }

  lemma CloseConnHeld(r: Reg, e: EntryId)
    requires Held(r) && Enabled(r, ACloseConn(e))
    ensures Held(CloseConn(r, e))
  {
    var r' := CloseConn(r, e);
    HandlesFrame(r, r');
    forall k | k in r'.entries ensures KeyInv(r', k) { assert KeyInv(r, k); }
    forall y | y in r'.objs ensures HeldInv(r', y) { assert HeldInv(r, y) && IsCurrent(r', y) == IsCurrent(r, y); }
  }

  lemma AttachHeld(r: Reg, h: HandleId, b: Backend)
    requires Held(r) && Enabled(r, AAttach(h, b))
    ensures Held(Attach(r, h, b))
  {
    var r' := Attach(r, h, b);
    assert HandleInv(r, h);
    forall k | k in r'.entries ensures KeyInv(r', k) { assert KeyInv(r, k); }
    forall y | y in r'.objs ensures HeldInv(r', y) {
      assert HeldInv(r, y) && IsCurrent(r', y) == IsCurrent(r, y) && Live(r', y) == Live(r, y);
    }
    forall x | x in r'.handles ensures HandleInv(r', x) { assert HandleInv(r, x); }
    forall y, c | y in r'.objs ensures SubInv(r', y, c) { AttachKeepsSub(r, h, b, y, c); }
  }

  /** The released entry: its count follows, and with the last handle its socket goes. */
  lemma ReleaseHeldOwn(r: Reg, h: HandleId, guarded: bool)
    requires Held(r) && Enabled(r, ARelease(h)) && !r.handles[h].released
    ensures r.handles[h].entry in Release(r, h, guarded).objs && HeldInv(Release(r, h, guarded), r.handles[h].entry)
  {
    var r', e := Release(r, h, guarded), r.handles[h].entry;
    assert HeldInv(r, e) && HandleInv(r, h);
    assert Live(r', e) == Live(r, e) - {h};
  }

  /** Any other entry: it may lose its place in the table, but neither its count nor its socket. */
  lemma ReleaseHeldOther(r: Reg, h: HandleId, guarded: bool, y: EntryId)
    requires Held(r) && Enabled(r, ARelease(h)) && !r.handles[h].released && y in r.objs && y != r.handles[h].entry
    ensures y in Release(r, h, guarded).objs && HeldInv(Release(r, h, guarded), y)
  {
    var r' := Release(r, h, guarded);
    assert HeldInv(r, y) && Live(r', y) == Live(r, y);
    assert IsCurrent(r', y) ==> IsCurrent(r, y);
  }

  lemma ReleaseHeld(r: Reg, h: HandleId, guarded: bool)
    requires Held(r) && Enabled(r, ARelease(h))
    ensures Held(Release(r, h, guarded))
  {
    var r' := Release(r, h, guarded);
    if !r.handles[h].released {
      forall k | k in r'.entries ensures KeyInv(r', k) { assert KeyInv(r, k); }
      forall y | y in r'.objs ensures HeldInv(r', y) {
        if y == r.handles[h].entry { ReleaseHeldOwn(r, h, guarded); } else { ReleaseHeldOther(r, h, guarded, y); }
      }
      forall x | x in r'.handles ensures HandleInv(r', x) { ReleaseKeepsHandle(r, h, guarded, x); }
      forall y, c | y in r'.objs ensures SubInv(r', y, c) { ReleaseKeepsSub(r, h, guarded, y, c); }
    }
  }

  lemma DropDeadHeld(r: Reg, e: EntryId)
    requires Held(r) && Enabled(r, ADropDead(e))
    ensures Held(DropDead(r, e))
  {
    var r' := DropDead(r, e);
    HandlesFrame(r, r');
    forall k | k in r'.entries ensures KeyInv(r', k) { assert KeyInv(r, k); }
    forall y | y in r'.objs ensures HeldInv(r', y) {
      assert HeldInv(r, y) && (y != e ==> IsCurrent(r', y) == IsCurrent(r, y));
    }
  }

  lemma CloseHeld(r: Reg)
    requires Held(r)
    ensures Held(CloseAll(r))
  {
    var r' := CloseAll(r);
    if !r.closed {
      HandlesFrame(r, r');
      forall y | y in r'.objs ensures HeldInv(r', y) { assert HeldInv(r, y) && Live(r', y) == Live(r, y); }
    }
  }

  lemma StepHeld(r: Reg, a: Action, guarded: bool)
    requires Held(r) && Enabled(r, a)
    ensures Held(Next(r, a, guarded))
  {
    match a
    case ACheck(k, f, e, h) => CheckHeld(r, k, f, e, h);
    case ABind(e, ok) => BindHeld(r, e, ok);
    case ACommit(e, h) => CommitHeld(r, e, h);
    case ACloseConn(e) => CloseConnHeld(r, e);
    case AAttach(h, b) => AttachHeld(r, h, b);
    case ARelease(h) => ReleaseHeld(r, h, guarded);
    case ADropDead(e) => DropDeadHeld(r, e);
    case AClose => CloseHeld(r);
  }

  /** Over every run of the code as it is, however many sockets die and however stale a release. */
  lemma {:induction false} RunHeld(r: Reg, acts: seq<Action>, guarded: bool, r': Reg)
    requires Held(r) && Run(r, acts, guarded, r')
    ensures Held(r')
    decreases |acts|
  {
    if acts != [] {
      StepHeld(r, acts[0], guarded);
      RunHeld(Next(r, acts[0], guarded), acts[1..], guarded, r');
    }
  }

  /** Nothing leaks: with every handle released and no bind in flight, the table is empty and no
      socket is open. */
  lemma HeldQuiescent(r: Reg)
    requires Held(r) && r.creators == map[] && forall h | h in r.handles :: r.handles[h].released
    ensures r.entries == map[] && r.open == {}
  {
    forall e | e in r.objs ensures !IsCurrent(r, e) && e !in r.open {
      assert HeldInv(r, e) && Live(r, e) == {};
    }
    forall k | k in r.entries ensures false { assert KeyInv(r, k) && IsCurrent(r, r.entries[k]); }
  }

  /** So from an empty registry, whatever happened in between. */
  lemma NothingLeaks(acts: seq<Action>, guarded: bool, r: Reg)
    requires Run(Init, acts, guarded, r) && r.creators == map[] && forall h | h in r.handles :: r.handles[h].released
    ensures r.entries == map[] && r.open == {}
  {
    RunHeld(Init, acts, guarded, r);
    HeldQuiescent(r);
  }
}
