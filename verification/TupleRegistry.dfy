/** The shared player-socket registry (internal/forward/tuple_registry.go).

    Every critical section under `r.mu` is one atomic step on a `Reg`; the bind system call and
    the late socket close happen between two critical sections and are steps of their own, so a
    run is any interleaving of any number of goroutines.  Pointers (`*tupleEntry`,
    `*tupleHandle`) are identity numbers; the socket bound for entry `e` carries the number `e`.
    Binding is NOT assumed to be exclusive: that two sockets are never open for one player tuple
    is proved of the protocol. */
module TupleSpec {
  import opened Prelude

  datatype Key = Key(n: nat)
  datatype Backend = Backend(n: nat)
  datatype EntryId = EntryId(n: nat)
  datatype HandleId = HandleId(n: nat)
  datatype FwdId = FwdId(n: nat)

  /** Where the creating goroutine of an entry is: in the bind call, back from it, or about to
      close a socket that did not make it into the table. */
  datatype Phase = Binding | Bound(ok: bool) | Closing
  datatype Creator = Creator(fwd: FwdId, phase: Phase)

  datatype Entry = Entry(key: Key, refs: int, subs: map<Backend, seq<HandleId>>, creating: bool, readyClosed: nat)
  datatype Handle = Handle(entry: EntryId, fwd: FwdId, sub: Option<Backend>, released: bool)
  datatype Reg = Reg(
    entries: map<Key, EntryId>,
    objs: map<EntryId, Entry>,
    handles: map<HandleId, Handle>,
    creators: map<EntryId, Creator>,
    open: set<EntryId>,
    closed: bool)

  const Init := Reg(map[], map[], map[], map[], {}, false)

  datatype Outcome = Got(h: HandleId) | Wait(e: EntryId) | MustBind(e: EntryId) | MustClose(e: EntryId) | Failed

  // ---------------------------------------------------------------- critical sections

  predicate IsCurrent(r: Reg, e: EntryId) {
    e in r.objs && r.objs[e].key in r.entries && r.entries[r.objs[e].key] == e
  }

  /** A new handle on a committed entry: `e.refs++`. */
  function TakeRef(r: Reg, e: EntryId, h: HandleId, f: FwdId): Reg
    requires e in r.objs
  {
    r.(objs := r.objs[e := r.objs[e].(refs := r.objs[e].refs + 1)],
       handles := r.handles[h := Handle(e, f, None, false)])
  }

  /** First critical section of `acquire`: join, wait on a placeholder, refuse, or reserve. */
  function AcquireCheck(r: Reg, k: Key, f: FwdId, e: EntryId, h: HandleId): (Reg, Outcome)
    requires k in r.entries ==> r.entries[k] in r.objs
  {
    if k in r.entries then
      if r.objs[r.entries[k]].creating then (r, Wait(r.entries[k]))
      else (TakeRef(r, r.entries[k], h, f), Got(h))
    else if r.closed then (r, Failed)
    else (r.(entries := r.entries[k := e],
             objs := r.objs[e := Entry(k, 0, map[], true, 0)],
             creators := r.creators[e := Creator(f, Binding)]), MustBind(e))
  }

  /** One more handle on `x`, new, owned by `f` and not yet subscribed; all else as it was. */
  ghost predicate Joined(was: Reg, now: Reg, x: EntryId, h: HandleId, f: FwdId) {
    && x in was.objs && x in now.objs && h !in was.handles && h in now.handles
    && now.handles[h].entry == x && now.handles[h].fwd == f && now.handles[h].sub == None && !now.handles[h].released
    && now.objs[x].refs == was.objs[x].refs + 1
    && now == was.(handles := was.handles[h := now.handles[h]], objs := was.objs[x := was.objs[x].(refs := now.objs[x].refs)])
  }

  /** A placeholder `e` for `k`, whose socket `f` is going to bind; all else as it was. */
  ghost predicate Reserved(was: Reg, now: Reg, k: Key, e: EntryId, f: FwdId) {
    && e !in was.objs && k !in was.entries && e in now.objs
    && now.objs[e].key == k && now.objs[e].creating && now.objs[e].refs == 0 && now.objs[e].readyClosed == 0 && now.objs[e].subs == map[]
    && now == was.(entries := was.entries[k := e], objs := was.objs[e := now.objs[e]], creators := was.creators[e := Creator(f, Binding)])
  }

  /** The placeholder `e` has become an entry with the handle `h` of `f`; all else as it was. */
  ghost predicate Committed(was: Reg, now: Reg, e: EntryId, h: HandleId, f: FwdId) {
    && e in was.objs && e in now.objs && h !in was.handles && h in now.handles
    && now.handles[h].entry == e && now.handles[h].fwd == f && now.handles[h].sub == None && !now.handles[h].released
    && !now.objs[e].creating && now.objs[e].refs == was.objs[e].refs + 1 && now.objs[e].readyClosed == was.objs[e].readyClosed + 1
    && now.objs[e].key == was.objs[e].key && now.objs[e].subs == was.objs[e].subs
    && now == was.(handles := was.handles[h := now.handles[h]], objs := was.objs[e := now.objs[e]], creators := was.creators - {e})
  }

  /** What an acquire of `k` is answered: a committed entry is joined, a placeholder waited for; otherwise
      a placeholder is made, unless the registry is closed. */
  ghost predicate AcquireAnswers(was: Reg, k: Key, f: FwdId, now: Reg, out: Outcome) {
    if k in was.entries && was.entries[k] in was.objs then
      var x := was.entries[k];
      if was.objs[x].creating then out == Wait(x) && now == was
      else out.Got? && Joined(was, now, x, out.h, f)
    else if was.closed then out == Failed && now == was
    else out.MustBind? && Reserved(was, now, k, out.e, f)
  }

  /** What its second look is answered: the socket is put to use exactly if it was bound and its
      placeholder still stands in an open registry; if not, the placeholder goes, with no handle, and a
      socket that was bound is closed next. */
  ghost predicate CommitAnswers(was: Reg, e: EntryId, f: FwdId, ok: bool, now: Reg, out: Outcome) {
    if ok && !was.closed && IsCurrent(was, e) then out.Got? && Committed(was, now, e, out.h, f)
    else
      && out == (if ok then MustClose(e) else Failed)
      && now.creators == (if ok then was.creators[e := Creator(f, Closing)] else was.creators - {e})
      && now.handles == was.handles && now.open == was.open && now.closed == was.closed
      && forall k :: k in now.entries <==> k in was.entries && was.entries[k] != e
  }

  /** The handle is released and out of its list; its entry counts one less, and with none left its
      socket is closed and its key deleted. */
  ghost predicate HandedBack(was: Reg, now: Reg, h: HandleId) {
    && h in was.handles && was.handles[h].entry in was.objs && was.handles[h].entry in now.objs
    && var e := was.handles[h].entry;
       && now.handles == was.handles[h := was.handles[h].(released := true, sub := None)]
       && now.objs[e].refs == was.objs[e].refs - 1
       && now.objs == was.objs[e := was.objs[e].(refs := now.objs[e].refs, subs := now.objs[e].subs)]
       && (forall b, x :: x in SubsAt(now.objs[e], b) <==> x in SubsAt(was.objs[e], b) && !(x == h && was.handles[h].sub == Some(b)))
       && now.open == (if now.objs[e].refs == 0 then was.open - {e} else was.open)
       && now.entries == (if now.objs[e].refs == 0 then was.entries - {was.objs[e].key} else was.entries)
       && now.creators == was.creators && now.closed == was.closed
  }

  /** The bind call returns, outside the lock. */
  function BindReturns(r: Reg, e: EntryId, ok: bool): Reg
    requires e in r.creators
  {
    r.(creators := r.creators[e := r.creators[e].(phase := Bound(ok))],
       open := if ok then r.open + {e} else r.open)
  }

  function GiveUp(r: Reg, e: EntryId, ok: bool): (Reg, Outcome)
    requires e in r.creators
  {
    if ok then (r.(creators := r.creators[e := r.creators[e].(phase := Closing)]), MustClose(e))
    else (r.(creators := r.creators - {e}), Failed)
  }

  /** Second critical section of `acquire`: commit, withdraw the placeholder, or find it gone. */
  function Commit(r: Reg, e: EntryId, h: HandleId): (Reg, Outcome)
    requires e in r.objs && e in r.creators && r.creators[e].phase.Bound?
  {
    var ok := r.creators[e].phase.ok;
    var en := r.objs[e];
    if ok && !r.closed && IsCurrent(r, e) then
      (r.(objs := r.objs[e := en.(creating := false, refs := en.refs + 1, readyClosed := en.readyClosed + 1)],
          handles := r.handles[h := Handle(e, r.creators[e].fwd, None, false)],
          creators := r.creators - {e}), Got(h))
    else if IsCurrent(r, e) then
      GiveUp(r.(entries := r.entries - {en.key},
                objs := r.objs[e := en.(readyClosed := en.readyClosed + 1)]), e, ok)
    else GiveUp(r, e, ok)
  }

  /** `conn.Close()` of a socket that was bound too late, outside the lock. */
  function CloseConn(r: Reg, e: EntryId): Reg {
    r.(open := r.open - {e}, creators := r.creators - {e})
  }

  function SubsAt(en: Entry, b: Backend): seq<HandleId> {
    if b in en.subs then en.subs[b] else []
  }

  function Attach(r: Reg, h: HandleId, b: Backend): Reg
    requires h in r.handles && r.handles[h].entry in r.objs
  {
    var e := r.handles[h].entry;
    var en := r.objs[e];
    r.(handles := r.handles[h := r.handles[h].(sub := Some(b))],
       objs := r.objs[e := en.(subs := en.subs[b := SubsAt(en, b) + [h]])])
  }

  function Detach(subs: map<Backend, seq<HandleId>>, sub: Option<Backend>, h: HandleId): map<Backend, seq<HandleId>> {
    if sub.None? || sub.value !in subs then subs
    else
      var rest := Without(subs[sub.value], h);
      if rest == [] then subs - {sub.value} else subs[sub.value := rest]
  }

  /** `release`.  The source deletes by key alone (`guarded == false`); `guarded == true` is the
      same step with the identity check that `dropDeadEntry` has. */
  function Release(r: Reg, h: HandleId, guarded: bool): Reg
    requires h in r.handles && r.handles[h].entry in r.objs
  {
    var hd := r.handles[h];
    if hd.released then r
    else
      var en := r.objs[hd.entry].(refs := r.objs[hd.entry].refs - 1,
                                  subs := Detach(r.objs[hd.entry].subs, hd.sub, h));
      var r1 := r.(handles := r.handles[h := hd.(released := true, sub := None)],
                   objs := r.objs[hd.entry := en]);
      if en.refs != 0 then r1
      else r1.(open := r.open - {hd.entry},
               entries := if !guarded || IsCurrent(r, hd.entry) then r.entries - {en.key} else r.entries)
  }

  /** `dropDeadEntry`: the dispatcher saw its socket die for an outside reason. */
  function DropDead(r: Reg, e: EntryId): Reg
    requires e in r.objs
  {
    if IsCurrent(r, e) then r.(open := r.open - {e}, entries := r.entries - {r.objs[e].key}) else r
  }

  /** `Close`: withdraw every placeholder, close and drop every committed entry. */
  function CloseAll(r: Reg): Reg {
    if r.closed then r
    else
      r.(closed := true,
         entries := map[],
         open := (set e | e in r.open && !(IsCurrent(r, e) && !r.objs[e].creating)),
         objs := (map e | e in r.objs ::
                    if IsCurrent(r, e) && r.objs[e].creating
                    then r.objs[e].(readyClosed := r.objs[e].readyClosed + 1) else r.objs[e]))
  }

  /** The subscribers `deliver` snapshots under the lock for a packet from backend `b`. */
  function Deliver(r: Reg, e: EntryId, b: Backend): seq<HandleId>
    requires e in r.objs
  {
    SubsAt(r.objs[e], b)
  }

  // ---------------------------------------------------------------- invariants

  /** Handles on `e` not yet released. */
  ghost function Live(r: Reg, e: EntryId): set<HandleId> {
    set h | h in r.handles && !r.handles[h].released && r.handles[h].entry == e
  }

  ghost predicate KeyInv(r: Reg, k: Key)
    requires k in r.entries
  {
    r.entries[k] in r.objs && r.objs[r.entries[k]].key == k
  }

  /** An entry's `ready` channel, socket, creator and reference count, against its place in the table. */
  ghost predicate EntryInv(r: Reg, e: EntryId)
    requires e in r.objs
  {
    var en := r.objs[e];
    && en.readyClosed == (if IsCurrent(r, e) && en.creating then 0 else 1)
    && (e in r.creators ==> en.creating)
    && (e in r.creators && !r.closed ==> IsCurrent(r, e) && !r.creators[e].phase.Closing?)
    && (IsCurrent(r, e) && en.creating ==> e in r.creators)
    && (e in r.open <==>
        || (e in r.creators && r.creators[e].phase in {Bound(true), Closing})
        || (IsCurrent(r, e) && !en.creating))
    && en.refs == |Live(r, e)|
    && (IsCurrent(r, e) && !en.creating ==> en.refs > 0)
  }

  ghost predicate KeysApart(r: Reg, d: EntryId, e: EntryId) {
    d in r.creators && d in r.objs && e in r.creators && e in r.objs && d != e ==> r.objs[d].key != r.objs[e].key
  }

  /** A handle names a committed entry, and a subscribed handle stands in that entry's list. */
  ghost predicate HandleInv(r: Reg, h: HandleId)
    requires h in r.handles
  {
    var hd := r.handles[h];
    && hd.entry in r.objs && !r.objs[hd.entry].creating
    && (hd.sub.Some? ==> !hd.released && h in SubsAt(r.objs[hd.entry], hd.sub.value))
  }

  /** A subscription list names unreleased handles of its entry, once each. */
  ghost predicate SubInv(r: Reg, e: EntryId, b: Backend)
    requires e in r.objs
  {
    && NoDup(SubsAt(r.objs[e], b))
    && (b in r.objs[e].subs ==> r.objs[e].subs[b] != [])
    && (forall h | h in SubsAt(r.objs[e], b) ::
          h in r.handles && r.handles[h].entry == e && r.handles[h].sub == Some(b) && !r.handles[h].released)
  }

  ghost predicate HandlesOk(r: Reg) {
    && (forall h {:trigger HandleInv(r, h)} | h in r.handles :: HandleInv(r, h))
    && (forall e, b {:trigger SubInv(r, e, b)} | e in r.objs :: SubInv(r, e, b))
  }

  ghost predicate TableOk(r: Reg) {
    && (r.closed ==> r.entries == map[])
    && r.creators.Keys <= r.objs.Keys && r.open <= r.objs.Keys
    && (forall k {:trigger KeyInv(r, k)} | k in r.entries :: KeyInv(r, k))
  }

  ghost predicate Inv(r: Reg) {
    && TableOk(r) && HandlesOk(r)
    && (forall e {:trigger EntryInv(r, e)} | e in r.objs :: EntryInv(r, e))
    && (forall d, e {:trigger KeysApart(r, d, e)} :: KeysApart(r, d, e))
  }

  /** No handle outlives its entry's place in the table (true until a socket dies from outside). */
  ghost predicate Anchored(r: Reg) {
    forall h | h in r.handles && !r.handles[h].released :: r.closed || IsCurrent(r, r.handles[h].entry)
  }

  // ---------------------------------------------------------------- steps and runs

  datatype Action =
    | ACheck(k: Key, f: FwdId, e: EntryId, h: HandleId)
    | ABind(e: EntryId, ok: bool)
    | ACommit(e: EntryId, h: HandleId)
    | ACloseConn(e: EntryId)
    | AAttach(h: HandleId, b: Backend)
    | ARelease(h: HandleId)
    | ADropDead(e: EntryId)
    | AClose

  predicate Enabled(r: Reg, a: Action) {
    match a
    case ACheck(k, _, e, h) => e !in r.objs && h !in r.handles && (k in r.entries ==> r.entries[k] in r.objs)
    case ABind(e, _) => e in r.creators && r.creators[e].phase == Binding
    case ACommit(e, h) => e in r.objs && e in r.creators && r.creators[e].phase.Bound? && h !in r.handles
    case ACloseConn(e) => e in r.creators && r.creators[e].phase == Closing
    case AAttach(h, _) => h in r.handles && r.handles[h].entry in r.objs && !r.handles[h].released && r.handles[h].sub == None
    case ARelease(h) => h in r.handles && r.handles[h].entry in r.objs
    case ADropDead(e) => e in r.objs && !r.objs[e].creating
    case AClose => true
  }

  function Next(r: Reg, a: Action, guarded: bool): Reg
    requires Enabled(r, a)
  {
    match a
    case ACheck(k, f, e, h) => AcquireCheck(r, k, f, e, h).0
    case ABind(e, ok) => BindReturns(r, e, ok)
    case ACommit(e, h) => Commit(r, e, h).0
    case ACloseConn(e) => CloseConn(r, e)
    case AAttach(h, b) => Attach(r, h, b)
    case ARelease(h) => Release(r, h, guarded)
    case ADropDead(e) => DropDead(r, e)
    case AClose => CloseAll(r)
  }

  /** `acts` is a run from `r` to `r'`. */
  ghost predicate Run(r: Reg, acts: seq<Action>, guarded: bool, r': Reg)
    decreases |acts|
  {
    if acts == [] then r' == r
    else Enabled(r, acts[0]) && Run(Next(r, acts[0], guarded), acts[1..], guarded, r')
  }

  /** A step that changes no handle changes no set of live handles, and no subscription. */
  lemma HandlesFrame(r: Reg, r': Reg)
    requires HandlesOk(r) && r'.handles == r.handles
    requires forall y | y in r.objs :: y in r'.objs && r'.objs[y].creating == r.objs[y].creating
    requires forall y | y in r'.objs :: r'.objs[y].subs == if y in r.objs then r.objs[y].subs else map[]
    ensures forall y {:trigger Live(r', y)} :: Live(r', y) == Live(r, y)
    ensures HandlesOk(r')
  {
    forall h | h in r'.handles ensures HandleInv(r', h) { assert HandleInv(r, h); }
    forall y, b | y in r'.objs ensures SubInv(r', y, b) { assert y in r.objs ==> SubInv(r, y, b); }
  }

  /** A fresh, unsubscribed handle on a committed entry. */
  lemma NewHandle(r: Reg, r': Reg, e: EntryId, h: HandleId)
    requires HandlesOk(r) && e in r.objs && h !in r.handles && h in r'.handles
    requires r'.handles == r.handles[h := Handle(e, r'.handles[h].fwd, None, false)]
    requires r'.objs.Keys == r.objs.Keys && !r'.objs[e].creating
    requires forall y | y in r.objs :: r'.objs[y].subs == r.objs[y].subs
    requires forall y | y in r.objs && y != e :: r'.objs[y].creating == r.objs[y].creating
    ensures forall y {:trigger Live(r', y)} | y != e :: Live(r', y) == Live(r, y)
    ensures |Live(r', e)| == |Live(r, e)| + 1
    ensures HandlesOk(r')
  {
    assert Live(r', e) == Live(r, e) + {h};
    forall x | x in r'.handles ensures HandleInv(r', x) { assert x in r.handles ==> HandleInv(r, x); }
    forall y, b | y in r'.objs ensures SubInv(r', y, b) { assert SubInv(r, y, b); }
  }

  lemma JoinKeepsInv(r: Reg, e: EntryId, h: HandleId, f: FwdId)
    requires Inv(r) && IsCurrent(r, e) && !r.objs[e].creating && h !in r.handles
    ensures Inv(TakeRef(r, e, h, f))
    ensures Anchored(r) ==> Anchored(TakeRef(r, e, h, f))
  {
    var r' := TakeRef(r, e, h, f);
    NewHandle(r, r', e, h);
    forall x | x in r'.entries ensures KeyInv(r', x) { assert KeyInv(r, x); }
    forall y | y in r'.objs ensures EntryInv(r', y) { JoinKeepsEntry(r, e, h, f, y); }
    forall d, y ensures KeysApart(r', d, y) { assert KeysApart(r, d, y); }
  }

  lemma JoinKeepsEntry(r: Reg, e: EntryId, h: HandleId, f: FwdId, y: EntryId)
    requires Inv(r) && IsCurrent(r, e) && !r.objs[e].creating && h !in r.handles && y in r.objs
    requires |Live(TakeRef(r, e, h, f), e)| == |Live(r, e)| + 1
    requires y != e ==> Live(TakeRef(r, e, h, f), y) == Live(r, y)
    ensures EntryInv(TakeRef(r, e, h, f), y)
  {
    assert EntryInv(r, y) && IsCurrent(TakeRef(r, e, h, f), y) == IsCurrent(r, y);
  }

  lemma ReserveKeepsEntry(r: Reg, k: Key, f: FwdId, e: EntryId, h: HandleId, y: EntryId)
    requires Inv(r) && Enabled(r, ACheck(k, f, e, h)) && k !in r.entries && !r.closed
    requires y in r.objs || y == e
    ensures EntryInv(AcquireCheck(r, k, f, e, h).0, y)
    ensures KeysApart(AcquireCheck(r, k, f, e, h).0, y, e)
  {
    var r' := AcquireCheck(r, k, f, e, h).0;
    if y == e {
      assert forall x | x in r.handles :: HandleInv(r, x);
      assert Live(r', e) == {};
    } else {
      assert EntryInv(r, y) && Live(r', y) == Live(r, y) && IsCurrent(r', y) == IsCurrent(r, y);
    }
  }

  lemma CheckKeepsInv(r: Reg, k: Key, f: FwdId, e: EntryId, h: HandleId)
    requires Inv(r) && Enabled(r, ACheck(k, f, e, h))
    ensures Inv(AcquireCheck(r, k, f, e, h).0)
    ensures AcquireAnswers(r, k, f, AcquireCheck(r, k, f, e, h).0, AcquireCheck(r, k, f, e, h).1)
    ensures Anchored(r) ==> Anchored(AcquireCheck(r, k, f, e, h).0)
  {
    if k in r.entries {
      assert KeyInv(r, k);
      if !r.objs[r.entries[k]].creating { JoinKeepsInv(r, r.entries[k], h, f); }
    } else if !r.closed {
      ReserveKeepsInv(r, k, f, e, h);
    }
  }

  lemma ReserveKeepsInv(r: Reg, k: Key, f: FwdId, e: EntryId, h: HandleId)
    requires Inv(r) && Enabled(r, ACheck(k, f, e, h)) && k !in r.entries && !r.closed
    ensures Inv(AcquireCheck(r, k, f, e, h).0)
    ensures Anchored(r) ==> Anchored(AcquireCheck(r, k, f, e, h).0)
  {
    var r' := AcquireCheck(r, k, f, e, h).0;
    HandlesFrame(r, r');
    forall x | x in r'.entries ensures KeyInv(r', x) { assert x in r.entries ==> KeyInv(r, x); }
    forall y | y in r'.objs ensures EntryInv(r', y) { ReserveKeepsEntry(r, k, f, e, h, y); }
    forall d, y ensures KeysApart(r', d, y) { ReserveKeepsApart(r, k, f, e, h, d, y); }
    if Anchored(r) { ReserveKeepsAnchors(r, k, f, e, h); }
  }

  lemma ReserveKeepsAnchors(r: Reg, k: Key, f: FwdId, e: EntryId, h: HandleId)
    requires Inv(r) && Anchored(r) && Enabled(r, ACheck(k, f, e, h)) && k !in r.entries && !r.closed
    ensures Anchored(AcquireCheck(r, k, f, e, h).0)
  {
    forall x | x in r.handles && !r.handles[x].released ensures IsCurrent(AcquireCheck(r, k, f, e, h).0, r.handles[x].entry) {
      assert HandleInv(r, x) && IsCurrent(r, r.handles[x].entry);
    }
  }

  lemma ReserveKeepsApart(r: Reg, k: Key, f: FwdId, e: EntryId, h: HandleId, d: EntryId, y: EntryId)
    requires Inv(r) && Enabled(r, ACheck(k, f, e, h)) && k !in r.entries && !r.closed
    ensures KeysApart(AcquireCheck(r, k, f, e, h).0, d, y)
  {
    var r' := AcquireCheck(r, k, f, e, h).0;
    if d in r'.objs && y in r'.objs {
      ReserveKeepsEntry(r, k, f, e, h, d);
      ReserveKeepsEntry(r, k, f, e, h, y);
      assert KeysApart(r, d, y);
    }
  }

  lemma BindKeepsInv(r: Reg, e: EntryId, ok: bool)
    requires Inv(r) && Enabled(r, ABind(e, ok))
    ensures Inv(BindReturns(r, e, ok))
    ensures Anchored(r) ==> Anchored(BindReturns(r, e, ok))
  {
    var r' := BindReturns(r, e, ok);
    HandlesFrame(r, r');
    forall x | x in r'.entries ensures KeyInv(r', x) { assert KeyInv(r, x); }
    forall y | y in r'.objs ensures EntryInv(r', y) { assert EntryInv(r, y) && IsCurrent(r', y) == IsCurrent(r, y); }
    forall d, y ensures KeysApart(r', d, y) { assert KeysApart(r, d, y); }
  }

  lemma CommitKeepsEntry(r: Reg, e: EntryId, h: HandleId, y: EntryId)
    requires Inv(r) && Enabled(r, ACommit(e, h)) && y in r.objs
    requires var r' := Commit(r, e, h).0;
             |Live(r', y)| == |Live(r, y)| + if Commit(r, e, h).1.Got? && y == e then 1 else 0
    ensures EntryInv(Commit(r, e, h).0, y)
    ensures y != e ==> IsCurrent(Commit(r, e, h).0, y) == IsCurrent(r, y)
  {
    assert EntryInv(r, y) && EntryInv(r, e);
    assert IsCurrent(r, e) ==> KeyInv(r, r.objs[e].key);
  }

  lemma CommitSays(r: Reg, e: EntryId, h: HandleId)
    requires TableOk(r) && Enabled(r, ACommit(e, h))
    ensures CommitAnswers(r, e, r.creators[e].fwd, r.creators[e].phase.ok, Commit(r, e, h).0, Commit(r, e, h).1)
  {
    forall k | k in r.entries && r.entries[k] == e ensures k == r.objs[e].key { assert KeyInv(r, k); }
  }

  lemma CommitKeepsInv(r: Reg, e: EntryId, h: HandleId)
    requires Inv(r) && Enabled(r, ACommit(e, h))
    ensures Inv(Commit(r, e, h).0)
    ensures CommitAnswers(r, e, r.creators[e].fwd, r.creators[e].phase.ok, Commit(r, e, h).0, Commit(r, e, h).1)
  {
    CommitSays(r, e, h);
    CommitHandles(r, e, h);
    CommitTables(r, e, h);
  }

  /** The half of the invariant that speaks of handles and subscriptions. */
  lemma CommitHandles(r: Reg, e: EntryId, h: HandleId)
    requires HandlesOk(r) && Enabled(r, ACommit(e, h))
    ensures var r' := Commit(r, e, h).0;
            && HandlesOk(r')
            && (forall y {:trigger Live(r', y)} ::
                  |Live(r', y)| == |Live(r, y)| + if Commit(r, e, h).1.Got? && y == e then 1 else 0)
  {
    var r' := Commit(r, e, h).0;
    if Commit(r, e, h).1.Got? { NewHandle(r, r', e, h); } else { HandlesFrame(r, r'); }
  }

  /** The half that speaks of the table, the sockets and the creators. */
  lemma CommitTables(r: Reg, e: EntryId, h: HandleId)
    requires Inv(r) && Enabled(r, ACommit(e, h))
    requires var r' := Commit(r, e, h).0;
             forall y {:trigger Live(r', y)} ::
               |Live(r', y)| == |Live(r, y)| + if Commit(r, e, h).1.Got? && y == e then 1 else 0
    ensures var r' := Commit(r, e, h).0;
            && TableOk(r')
            && (forall y {:trigger EntryInv(r', y)} | y in r'.objs :: EntryInv(r', y))
            && (forall d, y {:trigger KeysApart(r', d, y)} :: KeysApart(r', d, y))
  {
    var r' := Commit(r, e, h).0;
    forall x | x in r'.entries ensures KeyInv(r', x) { assert KeyInv(r, x); }
    forall y | y in r'.objs ensures EntryInv(r', y) { CommitKeepsEntry(r, e, h, y); }
    forall d, y ensures KeysApart(r', d, y) { assert KeysApart(r, d, y); }
  }

  lemma CommitKeepsAnchors(r: Reg, e: EntryId, h: HandleId)
    requires Inv(r) && Anchored(r) && Enabled(r, ACommit(e, h))
    ensures Anchored(Commit(r, e, h).0)
  {
    var r' := Commit(r, e, h).0;
    assert EntryInv(r, e);
    forall x | x in r'.handles && !r'.handles[x].released
      ensures r'.closed || IsCurrent(r', r'.handles[x].entry)
    {
      assert x in r.handles ==> HandleInv(r, x);
    }
  }

  lemma CloseConnKeepsInv(r: Reg, e: EntryId)
    requires Inv(r) && Enabled(r, ACloseConn(e))
    ensures Inv(CloseConn(r, e))
    ensures Anchored(r) ==> Anchored(CloseConn(r, e))
  {
    var r' := CloseConn(r, e);
    HandlesFrame(r, r');
    forall x | x in r'.entries ensures KeyInv(r', x) { assert KeyInv(r, x); }
    forall y | y in r'.objs ensures EntryInv(r', y) { assert EntryInv(r, y) && IsCurrent(r', y) == IsCurrent(r, y); }
    forall d, y ensures KeysApart(r', d, y) { assert KeysApart(r, d, y); }
  }

  lemma AttachList(r: Reg, h: HandleId, b: Backend, y: EntryId, c: Backend)
    requires Enabled(r, AAttach(h, b)) && y in r.objs
    ensures y in Attach(r, h, b).objs
    ensures SubsAt(Attach(r, h, b).objs[y], c) ==
            if y == r.handles[h].entry && c == b then SubsAt(r.objs[y], c) + [h] else SubsAt(r.objs[y], c)
  {
  }

  lemma AttachKeepsSub(r: Reg, h: HandleId, b: Backend, y: EntryId, c: Backend)
    requires HandlesOk(r) && Enabled(r, AAttach(h, b)) && y in r.objs
    ensures SubInv(Attach(r, h, b), y, c)
  {
    assert HandleInv(r, h) && SubInv(r, y, c) && SubInv(r, r.handles[h].entry, b);
    assert h !in SubsAt(r.objs[r.handles[h].entry], b);
    AttachList(r, h, b, y, c);
  }

  lemma AttachKeepsInv(r: Reg, h: HandleId, b: Backend)
    requires Inv(r) && Enabled(r, AAttach(h, b))
    ensures Inv(Attach(r, h, b))
    ensures Anchored(r) ==> Anchored(Attach(r, h, b))
  {
    var r', e := Attach(r, h, b), r.handles[h].entry;
    assert HandleInv(r, h);
    forall x | x in r'.entries ensures KeyInv(r', x) { assert KeyInv(r, x); }
    forall y | y in r'.objs ensures EntryInv(r', y) {
      assert EntryInv(r, y) && IsCurrent(r', y) == IsCurrent(r, y) && Live(r', y) == Live(r, y);
    }
    forall d, y ensures KeysApart(r', d, y) { assert KeysApart(r, d, y); }
    forall x | x in r'.handles ensures HandleInv(r', x) { assert HandleInv(r, x); }
    forall y, c | y in r'.objs ensures SubInv(r', y, c) { AttachKeepsSub(r, h, b, y, c); }
  }

  lemma ReleaseSubs(r: Reg, h: HandleId, guarded: bool, y: EntryId)
    requires Enabled(r, ARelease(h)) && !r.handles[h].released && y in r.objs
    ensures y in Release(r, h, guarded).objs
    ensures Release(r, h, guarded).objs[y].subs ==
            if y == r.handles[h].entry then Detach(r.objs[y].subs, r.handles[h].sub, h) else r.objs[y].subs
  {
  }

  /** Releasing takes the handle, and nothing else, out of its subscription list. */
  lemma ReleaseList(r: Reg, h: HandleId, guarded: bool, y: EntryId, c: Backend)
    requires Enabled(r, ARelease(h)) && !r.handles[h].released && y in r.objs
    ensures y in Release(r, h, guarded).objs
    ensures SubsAt(Release(r, h, guarded).objs[y], c) ==
            if y == r.handles[h].entry && Some(c) == r.handles[h].sub
            then Without(SubsAt(r.objs[y], c), h) else SubsAt(r.objs[y], c)
    ensures c in Release(r, h, guarded).objs[y].subs ==>
              Release(r, h, guarded).objs[y].subs[c] != [] || (c in r.objs[y].subs && r.objs[y].subs[c] == [])
  {
    ReleaseSubs(r, h, guarded, y);
  }

  lemma ReleaseSays(r: Reg, h: HandleId)
    requires HandlesOk(r) && Enabled(r, ARelease(h)) && !r.handles[h].released
    ensures HandedBack(r, Release(r, h, false), h)
  {
    var r', e := Release(r, h, false), r.handles[h].entry;
    forall b, x ensures x in SubsAt(r'.objs[e], b) <==> x in SubsAt(r.objs[e], b) && !(x == h && r.handles[h].sub == Some(b)) {
      assert SubInv(r, e, b);
      ReleaseList(r, h, false, e, b);
      WithoutNoDup(SubsAt(r.objs[e], b), h);
    }
  }

  lemma ReleaseKeepsSub(r: Reg, h: HandleId, guarded: bool, y: EntryId, c: Backend)
    requires HandlesOk(r) && Enabled(r, ARelease(h)) && !r.handles[h].released && y in r.objs
    ensures SubInv(Release(r, h, guarded), y, c)
  {
    assert SubInv(r, y, c);
    ReleaseList(r, h, guarded, y, c);
    WithoutNoDup(SubsAt(r.objs[y], c), h);
  }

  lemma ReleaseKeepsHandle(r: Reg, h: HandleId, guarded: bool, x: HandleId)
    requires HandlesOk(r) && Enabled(r, ARelease(h)) && !r.handles[h].released && x in r.handles
    ensures HandleInv(Release(r, h, guarded), x)
  {
    assert HandleInv(r, x);
    if r.handles[x].sub.Some? {
      ReleaseList(r, h, guarded, r.handles[x].entry, r.handles[x].sub.value);
    }
  }

  lemma ReleaseKeepsEntry(r: Reg, h: HandleId, guarded: bool, y: EntryId)
    requires Inv(r) && Enabled(r, ARelease(h)) && !r.handles[h].released && y in r.objs
    requires guarded || r.closed || IsCurrent(r, r.handles[h].entry)
    ensures EntryInv(Release(r, h, guarded), y)
    ensures y != r.handles[h].entry ==> IsCurrent(Release(r, h, guarded), y) == IsCurrent(r, y)
  {
    if y == r.handles[h].entry { ReleaseKeepsOwn(r, h, guarded); } else { ReleaseKeepsOther(r, h, guarded, y); }
  }

  lemma ReleaseKeepsOwn(r: Reg, h: HandleId, guarded: bool)
    requires Inv(r) && Enabled(r, ARelease(h)) && !r.handles[h].released
    requires guarded || r.closed || IsCurrent(r, r.handles[h].entry)
    ensures r.handles[h].entry in Release(r, h, guarded).objs && EntryInv(Release(r, h, guarded), r.handles[h].entry)
  {
    var r', e := Release(r, h, guarded), r.handles[h].entry;
    assert EntryInv(r, e) && HandleInv(r, h);
    assert Live(r', e) == Live(r, e) - {h};
  }

  lemma ReleaseKeepsOther(r: Reg, h: HandleId, guarded: bool, y: EntryId)
    requires Inv(r) && Enabled(r, ARelease(h)) && !r.handles[h].released && y in r.objs && y != r.handles[h].entry
    requires guarded || r.closed || IsCurrent(r, r.handles[h].entry)
    ensures EntryInv(Release(r, h, guarded), y) && IsCurrent(Release(r, h, guarded), y) == IsCurrent(r, y)
  {
    var r', e := Release(r, h, guarded), r.handles[h].entry;
    assert EntryInv(r, y);
    assert IsCurrent(r, e) ==> KeyInv(r, r.objs[e].key);
    assert Live(r', y) == Live(r, y);
  }

  /** The delete by key is sound where the entry is still the table's, the table is empty for
      good, or the delete is guarded. */
  lemma ReleaseKeepsInvAt(r: Reg, h: HandleId, guarded: bool)
    requires Inv(r) && Enabled(r, ARelease(h)) && !r.handles[h].released
    requires guarded || r.closed || IsCurrent(r, r.handles[h].entry)
    ensures Inv(Release(r, h, guarded))
  {
    var r' := Release(r, h, guarded);
    forall x | x in r'.entries ensures KeyInv(r', x) { assert KeyInv(r, x); }
    forall y | y in r'.objs ensures EntryInv(r', y) { ReleaseKeepsEntry(r, h, guarded, y); }
    forall d, y ensures KeysApart(r', d, y) { assert KeysApart(r, d, y); }
    forall x | x in r'.handles ensures HandleInv(r', x) { ReleaseKeepsHandle(r, h, guarded, x); }
    forall y, c | y in r'.objs ensures SubInv(r', y, c) { ReleaseKeepsSub(r, h, guarded, y, c); }
  }

  lemma ReleaseKeepsAnchors(r: Reg, h: HandleId, guarded: bool)
    requires Inv(r) && Anchored(r) && Enabled(r, ARelease(h)) && !r.handles[h].released
    ensures Anchored(Release(r, h, guarded))
  {
    var r', e := Release(r, h, guarded), r.handles[h].entry;
    assert EntryInv(r, e);
    forall x | x in r'.handles && !r'.handles[x].released && !r'.closed
      ensures IsCurrent(r', r'.handles[x].entry)
    {
      if r.handles[x].entry == e {
        assert {x, h} <= Live(r, e) && |{x, h}| == 2;
        SubsetSize({x, h}, Live(r, e));
      }
    }
  }

  lemma ReleaseKeepsInv(r: Reg, h: HandleId, guarded: bool)
    requires Inv(r) && Enabled(r, ARelease(h))
    requires guarded || Anchored(r)
    ensures Inv(Release(r, h, guarded))
    ensures Anchored(r) ==> Anchored(Release(r, h, guarded))
  {
    if !r.handles[h].released {
      ReleaseKeepsInvAt(r, h, guarded);
      if Anchored(r) { ReleaseKeepsAnchors(r, h, guarded); }
    }
  }

  lemma DropDeadKeepsInv(r: Reg, e: EntryId)
    requires Inv(r) && Enabled(r, ADropDead(e))
    ensures Inv(DropDead(r, e))
  {
    var r' := DropDead(r, e);
    HandlesFrame(r, r');
    forall x | x in r'.entries ensures KeyInv(r', x) { assert KeyInv(r, x); }
    forall y | y in r'.objs ensures EntryInv(r', y) {
      assert EntryInv(r, y) && (y != e ==> IsCurrent(r', y) == IsCurrent(r, y));
    }
    forall d, y ensures KeysApart(r', d, y) { assert KeysApart(r, d, y); }
  }

  lemma CloseKeepsInv(r: Reg)
    requires Inv(r)
    ensures Inv(CloseAll(r)) && CloseAll(r).closed
    ensures Anchored(CloseAll(r)) || r.closed
  {
    var r' := CloseAll(r);
    if !r.closed {
      HandlesFrame(r, r');
      forall y | y in r'.objs ensures EntryInv(r', y) { CloseKeepsEntry(r, y); }
      forall d, y ensures KeysApart(r', d, y) { assert KeysApart(r, d, y); }
    }
  }

  lemma CloseKeepsEntry(r: Reg, y: EntryId)
    requires Inv(r) && !r.closed && y in r.objs
    ensures y in CloseAll(r).objs && EntryInv(CloseAll(r), y)
  {
    assert EntryInv(r, y) && Live(CloseAll(r), y) == Live(r, y);
  }

  lemma StepKeepsInv(r: Reg, a: Action, guarded: bool)
    requires Inv(r) && Enabled(r, a)
    requires guarded || Anchored(r)
    ensures Inv(Next(r, a, guarded))
    ensures Anchored(r) && !a.ADropDead? ==> Anchored(Next(r, a, guarded))
    ensures r.closed ==> Next(r, a, guarded).closed
  {
    match a
    case ACheck(k, f, e, h) => CheckKeepsInv(r, k, f, e, h);
    case ABind(e, ok) => BindKeepsInv(r, e, ok);
    case ACommit(e, h) =>
      CommitKeepsInv(r, e, h);
      if Anchored(r) { CommitKeepsAnchors(r, e, h); }
    case ACloseConn(e) => CloseConnKeepsInv(r, e);
    case AAttach(h, b) => AttachKeepsInv(r, h, b);
    case ARelease(h) => ReleaseKeepsInv(r, h, guarded);
    case ADropDead(e) => DropDeadKeepsInv(r, e);
    case AClose => CloseKeepsInv(r);
  }

  /** Safety over whole runs: the code as it is while no socket dies from outside, and for every
      run once `release` has the identity check. */
  lemma {:induction false} RunKeepsInv(r: Reg, acts: seq<Action>, guarded: bool, r': Reg)
    requires Inv(r) && Run(r, acts, guarded, r')
    requires guarded || (Anchored(r) && forall a | a in acts :: !a.ADropDead?)
    ensures Inv(r')
    ensures r.closed ==> r'.closed && r'.entries == map[]
    decreases |acts|
  {
    if acts != [] {
      StepKeepsInv(r, acts[0], guarded);
      RunKeepsInv(Next(r, acts[0], guarded), acts[1..], guarded, r');
    }
  }

  /** At most one open socket per player tuple. */
  ghost predicate OneSocketPerTuple(r: Reg) {
    forall d, e | d in r.open && e in r.open && d in r.objs && e in r.objs && d != e ::
      r.objs[d].key != r.objs[e].key
  }

  lemma InvGivesOneSocket(r: Reg)
    requires Inv(r)
    ensures OneSocketPerTuple(r)
  {
    forall d, e | d in r.open && e in r.open && d != e ensures r.objs[d].key != r.objs[e].key {
      assert EntryInv(r, d) && EntryInv(r, e) && KeysApart(r, d, e);
    }
  }

  lemma {:induction false} RunsFromStart(acts: seq<Action>, guarded: bool, r: Reg)
    requires Run(Init, acts, guarded, r)
    requires guarded || forall a | a in acts :: !a.ADropDead?
    ensures OneSocketPerTuple(r)
    ensures forall k | k in r.entries ::
              r.entries[k] in r.objs && (r.objs[r.entries[k]].creating || r.entries[k] in r.open)
    ensures forall e | e in r.objs && !r.objs[e].creating && !IsCurrent(r, e) :: e !in r.open
    ensures forall e | e in r.objs :: r.objs[e].readyClosed <= 1 && (r.objs[e].readyClosed == 0 ==> e in r.creators)
    ensures forall e | e in r.objs :: r.objs[e].refs == |Live(r, e)|
    ensures r.closed ==> r.entries == map[]
  {
    RunKeepsInv(Init, acts, guarded, r);
    InvGivesOneSocket(r);
    forall k | k in r.entries
      ensures r.entries[k] in r.objs && (r.objs[r.entries[k]].creating || r.entries[k] in r.open)
    {
      assert KeyInv(r, k) && EntryInv(r, r.entries[k]);
    }
    assert forall e | e in r.objs :: EntryInv(r, e);
  }

  /** Nothing leaks: with every handle released and no bind in flight, the table is empty and no
      socket is open. */
  lemma Quiescent(r: Reg)
    requires Inv(r)
    requires forall h | h in r.handles :: r.handles[h].released
    requires r.creators == map[]
    ensures r.entries == map[] && r.open == {}
  {
    forall e | e in r.objs ensures !IsCurrent(r, e) && e !in r.open {
      assert EntryInv(r, e) && Live(r, e) == {};
    }
    forall k | k in r.entries ensures false { assert KeyInv(r, k) && IsCurrent(r, r.entries[k]); }
  }

  // ---------------------------------------------------------------- the unguarded delete

  /** The check `dropDeadEntry` makes and `release` does not: on the last reference, no other
      entry has taken the key. */
  ghost predicate NotStale(r: Reg, h: HandleId)
    requires h in r.handles && r.handles[h].entry in r.objs
  {
    var e := r.handles[h].entry;
    r.handles[h].released || r.objs[e].refs != 1 || r.objs[e].key !in r.entries || IsCurrent(r, e)
  }

  /** Exactly when the source's `release` keeps the registry's invariants. */
  lemma ReleaseKeepsInvIff(r: Reg, h: HandleId)
    requires Inv(r) && Enabled(r, ARelease(h))
    ensures Inv(Release(r, h, false)) <==> NotStale(r, h)
  {
    var hd := r.handles[h];
    var e := hd.entry;
    assert HandleInv(r, h) && EntryInv(r, e);
    if hd.released {
    } else if DeletesAlike(r, h) {
      ReleaseKeepsInvAt(r, h, true);
    } else {
      var x := r.entries[r.objs[e].key];
      var r' := Release(r, h, false);
      assert KeyInv(r, r.objs[e].key) && EntryInv(r, x);
      assert !IsCurrent(r', x) && r'.objs[x] == r.objs[x];
      assert !EntryInv(r', x);
    }
  }

  ghost predicate DeletesAlike(r: Reg, h: HandleId)
    requires h in r.handles && r.handles[h].entry in r.objs
    ensures DeletesAlike(r, h) == NotStale(r, h)
    ensures DeletesAlike(r, h) ==> Release(r, h, false) == Release(r, h, true)
  {
    assert r.objs[r.handles[h].entry].key !in r.entries ==>
        r.entries - {r.objs[r.handles[h].entry].key} == r.entries;
    NotStale(r, h)
  }

  /** The code's own runs, dead sockets included. */
  ghost predicate Possible(r: Reg, acts: seq<Action>)
    decreases |acts|
  {
    acts == [] || (Enabled(r, acts[0]) && Possible(Next(r, acts[0], false), acts[1..]))
  }

  ghost predicate AlwaysInv(r: Reg, acts: seq<Action>)
    requires Possible(r, acts)
    decreases |acts|
  {
    Inv(r) && (acts == [] || AlwaysInv(Next(r, acts[0], false), acts[1..]))
  }

  /** No last reference is released after another entry has taken the key. */
  ghost predicate NeverStale(r: Reg, acts: seq<Action>)
    requires Possible(r, acts)
    decreases |acts|
  {
    acts == [] || ((acts[0].ARelease? ==> NotStale(r, acts[0].h)) && NeverStale(Next(r, acts[0], false), acts[1..]))
  }

  /** Safety of the code as it is, over every run with any number of dead sockets: the invariant holds
      at every moment if and only if no release is stale. */
  lemma {:induction false} RunKeepsInvIff(r: Reg, acts: seq<Action>)
    requires Inv(r) && Possible(r, acts)
    ensures AlwaysInv(r, acts) <==> NeverStale(r, acts)
    decreases |acts|
  {
    if acts != [] {
      var a, r' := acts[0], Next(r, acts[0], false);
      if a.ARelease? {
        ReleaseKeepsInvIff(r, a.h);
      } else {
        StepKeepsInv(r, a, true);
        assert r' == Next(r, a, true);
      }
      if Inv(r') { RunKeepsInvIff(r', acts[1..]); }
    }
  }

  /** The run that goes wrong: a socket dies, the tuple is acquired again, the stale handle is
      released and takes the new entry out of the table, and the next acquire binds the tuple a
      second time while the first socket is still open. */
  const K := Key(0)
  const F := FwdId(0)
  const E1 := EntryId(1)
  const E2 := EntryId(2)
  const E3 := EntryId(3)
  const H1 := HandleId(1)
  const H2 := HandleId(2)
  const H3 := HandleId(3)
  const SocketDies := [ACheck(K, F, E1, H1), ABind(E1, true), ACommit(E1, H1), ADropDead(E1)]
  const StaleRelease := [ACheck(K, F, E2, H2), ABind(E2, true), ACommit(E2, H2), ARelease(H1)]
  const SecondBind := [ACheck(K, F, E3, H3), ABind(E3, true)]

  const AfterDeath := Reg(map[], map[E1 := Entry(K, 1, map[], false, 1)],
                          map[H1 := Handle(E1, F, None, false)], map[], {}, false)
  const AfterStale := Reg(map[], map[E1 := Entry(K, 0, map[], false, 1), E2 := Entry(K, 1, map[], false, 1)],
                          map[H1 := Handle(E1, F, None, true), H2 := Handle(E2, F, None, false)], map[], {E2}, false)

  lemma {:induction false} RunAppend(r: Reg, a: seq<Action>, s: Reg, b: seq<Action>, guarded: bool, t: Reg)
    requires Run(r, a, guarded, s) && Run(s, b, guarded, t)
    ensures Run(r, a + b, guarded, t)
    decreases |a|
  {
    if a == [] {
      assert a + b == b;
    } else {
      assert (a + b)[1..] == a[1..] + b;
      RunAppend(Next(r, a[0], guarded), a[1..], s, b, guarded, t);
    }
  }

  lemma RunTwo(r: Reg, a: Action, b: Action, guarded: bool)
    requires Enabled(r, a) && Enabled(Next(r, a, guarded), b)
    ensures Run(r, [a, b], guarded, Next(Next(r, a, guarded), b, guarded))
  {
    assert [a, b][1..] == [b] && [b][1..] == [];
  }

  lemma SocketDiesRun()
    ensures Run(Init, SocketDies, false, AfterDeath)
  {
    RunTwo(Init, SocketDies[0], SocketDies[1], false);
    var mid := Next(Next(Init, SocketDies[0], false), SocketDies[1], false);
    RunTwo(mid, SocketDies[2], SocketDies[3], false);
    RunAppend(Init, SocketDies[..2], mid, SocketDies[2..], false, AfterDeath);
    assert SocketDies == SocketDies[..2] + SocketDies[2..];
  }

  lemma StaleReleaseRun()
    ensures Run(AfterDeath, StaleRelease, false, AfterStale)
  {
    RunTwo(AfterDeath, StaleRelease[0], StaleRelease[1], false);
    var mid := Next(Next(AfterDeath, StaleRelease[0], false), StaleRelease[1], false);
    RunTwo(mid, StaleRelease[2], StaleRelease[3], false);
    RunAppend(AfterDeath, StaleRelease[..2], mid, StaleRelease[2..], false, AfterStale);
    assert StaleRelease == StaleRelease[..2] + StaleRelease[2..];
  }

  lemma StaleReleaseBreaksExclusivity()
    ensures exists r :: Run(Init, SocketDies + StaleRelease + SecondBind, false, r) && !OneSocketPerTuple(r)
  {
    SocketDiesRun();
    StaleReleaseRun();
    RunAppend(Init, SocketDies, AfterDeath, StaleRelease, false, AfterStale);
    RunTwo(AfterStale, SecondBind[0], SecondBind[1], false);
    var r := Next(Next(AfterStale, SecondBind[0], false), SecondBind[1], false);
    RunAppend(Init, SocketDies + StaleRelease, AfterStale, SecondBind, false, r);
    assert E2 in r.open && E3 in r.open && r.objs[E2].key == r.objs[E3].key;
  }
}
