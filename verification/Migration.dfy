/** Schema migration (internal/storage/migrate.go:36-365): users that carried their tunnel identity and
    quota become users with a group and an access code. */
module Migration {
  import opened Prelude
  import opened Quotas
  import GA = GroupAdmin

  /** A stored user: the legacy fields are what schema 1 kept in the record; an access code migrated
      from a user has the user's own identifier. */
  datatype User = User(id: UserId, admin: bool, group: Option<GroupId>, tunIP: string, secret: string, start: int, end: int, rules: int)
  datatype Code = Code(owner: UserId, tunIP: string, secret: string)

  /** `nextId` stands for the generator of fresh group identifiers. */
  datatype Db = Db(version: int, settings: Settings, groups: map<GroupId, Group>, users: seq<User>, codes: map<UserId, Code>, nextId: nat)

  const VERSION := 3

  /** Generated identifiers are not in use yet. */
  ghost predicate IdsFresh(db: Db) {
    forall g | g in db.groups :: g.n < db.nextId
  }

  /** User identifiers are the keys of their bucket. */
  ghost predicate DistinctUsers(us: seq<User>) {
    forall i, j | 0 <= i < j < |us| :: us[i].id != us[j].id
  }

  // ---------------------------------------------------------------- the parts

  const FOLLOW_GLOBAL := Group("default", 0, 0, -1, -1, -1, true)

  predicate HasQuota(u: User) { u.start > 0 || u.end > 0 || u.rules > 0 }

  predicate Grouped(u: User) { HasQuota(u) && !u.admin }

  /** The settings before widening: a database without any gets the defaults. */
  function Base(s: Settings): Settings {
    if s.start == 0 && s.end == 0
    then s.(start := DEFAULTS.start, end := DEFAULTS.end, maxCodes := DEFAULTS.maxCodes, maxTunnels := DEFAULTS.maxTunnels, maxRules := DEFAULTS.maxRules)
    else s
  }

  /** The least positive start, and the greatest end and rule limit; 0 when there is none. */
  ghost predicate Extremes(us: seq<User>, lo: int, hi: int, rules: int) {
    && lo >= 0 && hi >= 0 && rules >= 0
    && (forall i | 0 <= i < |us| :: us[i].end <= hi && us[i].rules <= rules && (us[i].start > 0 ==> 0 < lo <= us[i].start))
    && (lo > 0 ==> exists i :: 0 <= i < |us| && us[i].start == lo)
    && (hi > 0 ==> exists i :: 0 <= i < |us| && us[i].end == hi)
    && (rules > 0 ==> exists i :: 0 <= i < |us| && us[i].rules == rules)
  }

  function Widen(s: Settings, lo: int, hi: int, rules: int): Settings {
    s.(start := if 0 < lo < s.start then lo else s.start,
       end := if hi > s.end then hi else s.end,
       maxRules := if rules > s.maxRules then rules else s.maxRules)
  }

  function CleanUser(u: User, g: GroupId): User {
    User(u.id, u.admin, if u.admin then None else Some(g), "", "", 0, 0, 0)
  }

  predicate CarriesCode(u: User) { u.tunIP != "" && u.secret != "" }

  /** The group of a quota as schema 2 stores it. */
  predicate IsQuotaGroup(g: Group, t: Triple) {
    g.start == t.start && g.end == t.end && g.maxRules == t.rules && g.maxCodes == 0 && g.maxTunnels == 0 && !g.isDefault
  }

  datatype Triple = Triple(start: int, end: int, rules: int)

  function TripleOf(u: User): Triple { Triple(u.start, u.end, u.rules) }

  // ---------------------------------------------------------------- schema 2 to 3

  function Unset(n: int): int { if n == 0 then -1 else n }

  function Upgrade(g: Group): Group {
    g.(maxCodes := Unset(g.maxCodes), maxTunnels := Unset(g.maxTunnels), maxRules := Unset(g.maxRules))
  }

  function UpgradeAll(gs: map<GroupId, Group>): map<GroupId, Group> {
    map k | k in gs :: Upgrade(gs[k])
  }

  /** How schema 2 read a group: 0 meant "follow the global value". */
  function PickV2(group: int, glob: int): Limit {
    if group > 0 then Limit(group, FromGroup) else if glob > 0 then Limit(glob, FromGlobal) else Limit(0, Unlimited)
  }

  function ResolveV2(g: Group, s: Settings): Quota {
    var ranged := IsRange(g.start, g.end);
    var start, end := if ranged then g.start else s.start, if ranged then g.end else s.end;
    Quota(start, end, if start <= 0 || end <= 0 then Unlimited else if ranged then FromGroup else FromGlobal,
          PickV2(g.maxCodes, s.maxCodes), PickV2(g.maxTunnels, s.maxTunnels), PickV2(g.maxRules, s.maxRules))
  }

  /** Turning 0 into -1 keeps what every schema 2 group means. */
  lemma UpgradeKeepsMeaning(g: Group, s: Settings)
    requires g.maxCodes >= 0 && g.maxTunnels >= 0 && g.maxRules >= 0 && g.start >= 0 && g.end >= 0
    ensures Resolve(Some(Upgrade(g)), s) == ResolveV2(g, s)
    ensures Upgrade(Upgrade(g)) == Upgrade(g)
  {
  }

  method MigrateV2ToV3(gs: map<GroupId, Group>) returns (r: map<GroupId, Group>)
    ensures r == UpgradeAll(gs)
  {
    var updates: map<GroupId, Group> := map[];
    var todo := gs.Keys;
    while todo != {}
      invariant todo <= gs.Keys
      invariant updates == map k | k in gs && k !in todo && Upgrade(gs[k]) != gs[k] :: Upgrade(gs[k])
      decreases todo
    {
      var k :| k in todo;
      var g := gs[k];
      var changed := false;
      if g.maxCodes == 0 { g := g.(maxCodes := -1); changed := true; }
      if g.maxTunnels == 0 { g := g.(maxTunnels := -1); changed := true; }
      if g.maxRules == 0 { g := g.(maxRules := -1); changed := true; }
      if changed {
        updates := updates[k := g];
      }
      todo := todo - {k};
    }
    r := gs;
    var keys := updates.Keys;
    while keys != {}
      invariant keys <= updates.Keys
      invariant r == map k | k in gs :: if k in updates && k !in keys then updates[k] else gs[k]
      decreases keys
    {
      var k :| k in keys;
      r := r[k := updates[k]];
      keys := keys - {k};
    }
  }

  // ---------------------------------------------------------------- schema 1 to 2

  method FindExtremes(us: seq<User>) returns (lo: int, hi: int, rules: int)
    ensures Extremes(us, lo, hi, rules)
  {
    lo, hi, rules := 0, 0, 0;
    var i := 0;
    while i < |us|
      invariant i <= |us| && Extremes(us[..i], lo, hi, rules)
    {
      ghost var was := us[..i];
      ghost var lo0, hi0, rules0 := lo, hi, rules;
      if us[i].start > 0 && (lo == 0 || us[i].start < lo) { lo := us[i].start; }
      if us[i].end > hi { hi := us[i].end; }
      if us[i].rules > rules { rules := us[i].rules; }
      assert us[..i + 1] == was + [us[i]];
      ExtremesStep(was, us[i], lo0, hi0, rules0);
      i := i + 1;
    }
    assert us[..i] == us;
  }

  lemma ExtremesStep(us: seq<User>, u: User, lo: int, hi: int, rules: int)
    requires Extremes(us, lo, hi, rules)
    ensures Extremes(us + [u], if u.start > 0 && (lo == 0 || u.start < lo) then u.start else lo,
                     if u.end > hi then u.end else hi, if u.rules > rules then u.rules else rules)
  {
    var vs := us + [u];
    assert vs[|us|] == u;
    assert forall i | 0 <= i < |us| :: vs[i] == us[i];
  }

  /** `ensureDefaultGroupTx`. */
  method EnsureDefault(gs: map<GroupId, Group>, nextId: nat) returns (gs': map<GroupId, Group>, id: GroupId, nextId': nat)
    requires forall g | g in gs :: g.n < nextId
    ensures id in gs' && gs'[id].isDefault && nextId <= nextId' && forall g | g in gs' :: g.n < nextId'
    ensures if exists k :: k in gs && gs[k].isDefault then gs' == gs && nextId' == nextId
            else id == GroupId(nextId) && gs' == gs[id := FOLLOW_GLOBAL]
  {
    var found: Option<GroupId> := None;
    var todo := gs.Keys;
    while todo != {}
      invariant todo <= gs.Keys
      invariant found.Some? ==> found.value in gs && gs[found.value].isDefault
      invariant found.None? ==> forall k | k in gs && k !in todo :: !gs[k].isDefault
      decreases todo
    {
      var k :| k in todo;
      if found.None? && gs[k].isDefault {
        found := Some(k);
      }
      todo := todo - {k};
    }
    if found.Some? {
      return gs, found.value, nextId;
    }
    id := GroupId(nextId);
    return gs[id := FOLLOW_GLOBAL], id, nextId + 1;
  }

  // ---------------------------------------------------------------- placing users

  /** The groups made so far: one per quota, all new, the old ones untouched. */
  ghost predicate GroupsOk(base: map<GroupId, Group>, made: map<Triple, GroupId>, gs: map<GroupId, Group>) {
    && (forall k | k in base :: k in gs && gs[k] == base[k])
    && (forall t | t in made :: made[t] in gs && made[t] !in base && IsQuotaGroup(gs[made[t]], t))
    && (forall k | k in gs && k !in base :: TripleIn(gs[k]) in made && made[TripleIn(gs[k])] == k)
  }

  function TripleIn(g: Group): Triple { Triple(g.start, g.end, g.maxRules) }

  /** Where a user of the old database ends up. */
  predicate Placed(made: map<Triple, GroupId>, dflt: GroupId, u: User, v: User) {
    if Grouped(u) then TripleOf(u) in made && v == CleanUser(u, made[TripleOf(u)]) else v == CleanUser(u, dflt)
  }

  /** Every group was made for some user's quota. */
  ghost predicate AllMade(us: seq<User>, made: map<Triple, GroupId>) {
    forall t | t in made :: MadeFor(us, t)
  }

  ghost predicate MadeFor(us: seq<User>, t: Triple) {
    exists i :: 0 <= i < |us| && Grouped(us[i]) && TripleOf(us[i]) == t
  }

  ghost predicate AllPlaced(made: map<Triple, GroupId>, dflt: GroupId, us: seq<User>, vs: seq<User>) {
    |us| == |vs| && forall i | 0 <= i < |us| :: Placed(made, dflt, us[i], vs[i])
  }

  /** The code with identifier `c` afterwards: an existing one as it was, else the one its user carried. */
  function CodeAfter(us: seq<User>, codes: map<UserId, Code>, c: UserId): Option<Code> {
    if c in codes then Some(codes[c])
    else if us == [] then None
    else
      var u := us[|us| - 1];
      var before := CodeAfter(us[..|us| - 1], codes, c);
      if before.None? && u.id == c && CarriesCode(u) then Some(Code(u.id, u.tunIP, u.secret)) else before
  }

  ghost predicate CodesOk(us: seq<User>, codes: map<UserId, Code>, codes': map<UserId, Code>) {
    forall c {:trigger CodeAfter(us, codes, c)} ::
      CodeAfter(us, codes, c) == if c in codes' then Some(codes'[c]) else None
  }

  /** One group per quota: found, or made. */
  method GroupFor(u: User, ghost base: map<GroupId, Group>, made: map<Triple, GroupId>, gs: map<GroupId, Group>, nextId: nat)
    returns (made': map<Triple, GroupId>, gs': map<GroupId, Group>, nextId': nat)
    requires GroupsOk(base, made, gs) && forall g | g in gs :: g.n < nextId
    ensures GroupsOk(base, made', gs') && nextId <= nextId' && forall g | g in gs' :: g.n < nextId'
    ensures made'.Keys == made.Keys + {TripleOf(u)} && forall t | t in made :: made'[t] == made[t]
  {
    var t := TripleOf(u);
    if t in made {
      return made, gs, nextId;
    }
    var id := GroupId(nextId);
    var g := Group("migrated", u.start, u.end, 0, 0, u.rules, false);
    return made[t := id], gs[id := g], nextId + 1;
  }

  /** One user: its group, its code, its new record. */
  method PlaceUser(u: User, ghost base: map<GroupId, Group>, dflt: GroupId, gs: map<GroupId, Group>, codes: map<UserId, Code>,
                   made: map<Triple, GroupId>, nextId: nat)
    returns (v: User, gs': map<GroupId, Group>, codes': map<UserId, Code>, made': map<Triple, GroupId>, nextId': nat)
    requires GroupsOk(base, made, gs) && forall g | g in gs :: g.n < nextId
    ensures GroupsOk(base, made', gs') && nextId <= nextId' && forall g | g in gs' :: g.n < nextId'
    ensures made' == made || (Grouped(u) && made'.Keys == made.Keys + {TripleOf(u)} && forall t | t in made :: made'[t] == made[t])
    ensures Placed(made', dflt, u, v)
    ensures codes' == if CarriesCode(u) && u.id !in codes then codes[u.id := Code(u.id, u.tunIP, u.secret)] else codes
  {
    gs', codes', made', nextId' := gs, codes, made, nextId;
    var gid := dflt;
    if HasQuota(u) && !u.admin {
      made', gs', nextId' := GroupFor(u, base, made, gs, nextId);
      gid := made'[TripleOf(u)];
    }
    if u.tunIP != "" && u.secret != "" && u.id !in codes {
      codes' := codes[u.id := Code(u.id, u.tunIP, u.secret)];
    }
    v := CleanUser(u, gid);
  }

  lemma AllPlacedStep(us: seq<User>, u: User, vs: seq<User>, v: User, was: map<Triple, GroupId>, now: map<Triple, GroupId>, dflt: GroupId)
    requires AllPlaced(was, dflt, us, vs) && Placed(now, dflt, u, v)
    requires forall t | t in was :: t in now && now[t] == was[t]
    ensures AllPlaced(now, dflt, us + [u], vs + [v])
  {
    forall i | 0 <= i < |us| ensures Placed(now, dflt, us[i], vs[i]) {
      assert Placed(was, dflt, us[i], vs[i]);
    }
  }

  /** The loop over all users: groups, codes and rewritten records. */
  method PlaceUsers(us: seq<User>, base: map<GroupId, Group>, dflt: GroupId, codes: map<UserId, Code>, nextId: nat)
    returns (vs: seq<User>, gs: map<GroupId, Group>, codes': map<UserId, Code>, made: map<Triple, GroupId>, nextId': nat)
    requires forall g | g in base :: g.n < nextId
    ensures GroupsOk(base, made, gs) && AllPlaced(made, dflt, us, vs) && AllMade(us, made) && CodesOk(us, codes, codes')
    ensures nextId <= nextId' && forall g | g in gs :: g.n < nextId'
  {
    vs, gs, codes', made, nextId' := [], base, codes, map[], nextId;
    var i := 0;
    while i < |us|
      invariant i <= |us| && GroupsOk(base, made, gs) && AllPlaced(made, dflt, us[..i], vs) && CodesOk(us[..i], codes, codes')
      invariant AllMade(us[..i], made) && nextId <= nextId' && forall g | g in gs :: g.n < nextId'
    {
      ghost var was, before := made, codes';
      var v;
      v, gs, codes', made, nextId' := PlaceUser(us[i], base, dflt, gs, codes', made, nextId');
      AllPlacedStep(us[..i], us[i], vs, v, was, made, dflt);
      MadeStep(us[..i], us[i], was, made);
      CodeStep(us[..i], us[i], codes, before, codes');
      assert us[..i + 1] == us[..i] + [us[i]];
      vs := vs + [v];
      i := i + 1;
    }
    assert us[..i] == us;
  }

  lemma MadeStep(us: seq<User>, u: User, was: map<Triple, GroupId>, now: map<Triple, GroupId>)
    requires AllMade(us, was)
    requires now == was || (Grouped(u) && now.Keys == was.Keys + {TripleOf(u)})
    ensures AllMade(us + [u], now)
  {
    forall t | t in now ensures MadeFor(us + [u], t) {
      if t in was {
        var i :| 0 <= i < |us| && Grouped(us[i]) && TripleOf(us[i]) == t;
        assert (us + [u])[i] == us[i];
      } else {
        assert (us + [u])[|us|] == u;
      }
    }
  }

  lemma CodeStep(us: seq<User>, u: User, codes: map<UserId, Code>, was: map<UserId, Code>, now: map<UserId, Code>)
    requires CodesOk(us, codes, was)
    requires now == if CarriesCode(u) && u.id !in was then was[u.id := Code(u.id, u.tunIP, u.secret)] else was
    ensures CodesOk(us + [u], codes, now)
  {
    assert (us + [u])[..|us|] == us;
    forall c ensures CodeAfter(us + [u], codes, c) == if c in now then Some(now[c]) else None {
      assert CodeAfter(us, codes, c) == if c in was then Some(was[c]) else None;
    }
  }

  // ---------------------------------------------------------------- the whole migration

  /** The intermediate results of migrating a schema 1 database. */
  datatype Trace = Trace(lo: int, hi: int, rules: int, base: map<GroupId, Group>, dflt: GroupId, mid: map<GroupId, Group>, made: map<Triple, GroupId>)

  ghost predicate FromV1(db: Db, db': Db, w: Trace) {
    && Extremes(db.users, w.lo, w.hi, w.rules)
    && w.dflt in w.base && w.base[w.dflt].isDefault
    && (if exists k :: k in db.groups && db.groups[k].isDefault then w.base == db.groups
        else w.dflt !in db.groups && w.base == db.groups[w.dflt := FOLLOW_GLOBAL])
    && GroupsOk(w.base, w.made, w.mid) && AllPlaced(w.made, w.dflt, db.users, db'.users) && AllMade(db.users, w.made) && CodesOk(db.users, db.codes, db'.codes)
    && db'.groups == UpgradeAll(w.mid)
    && db'.settings == WithDefault(Widen(Base(db.settings), w.lo, w.hi, w.rules), w.dflt)
    && db'.version == VERSION
  }

  function WithDefault(s: Settings, id: GroupId): Settings {
    if s.defaultGroup.None? then s.(defaultGroup := Some(id)) else s
  }

  method MigrateV1(db: Db) returns (db': Db, ghost w: Trace)
    requires IdsFresh(db)
    ensures FromV1(db, db', w) && IdsFresh(db')
  {
    var lo, hi, rules := FindExtremes(db.users);
    var cfg := Widen(Base(db.settings), lo, hi, rules);
    var base, dflt, n := EnsureDefault(db.groups, db.nextId);
    cfg := WithDefault(cfg, dflt);
    var users, mid, codes, made, nextId := PlaceUsers(db.users, base, dflt, db.codes, n);
    var groups := MigrateV2ToV3(mid);
    w := Trace(lo, hi, rules, base, dflt, mid, made);
    db' := Db(VERSION, cfg, groups, users, codes, nextId);
  }

  /** The version the code works from: records without settings are schema 1 if there are users. */
  function EffectiveVersion(db: Db): int {
    if db.version < 1 && db.users != [] then 1 else db.version
  }

  /** A database without settings or users becomes the default settings with a default group recorded
      in them: the one it had, or else a new one that follows the global values. */
  ghost predicate StartsFresh(db: Db, db': Db) {
    && db'.version == VERSION && db'.users == [] && db'.codes == db.codes
    && db'.settings.defaultGroup.Some? && db'.settings == DEFAULTS.(defaultGroup := db'.settings.defaultGroup)
    && var gid := db'.settings.defaultGroup.value;
       && gid in db'.groups && db'.groups[gid].isDefault
       && if exists k :: k in db.groups && db.groups[k].isDefault then db'.groups == UpgradeAll(db.groups)
          else gid !in db.groups && db'.groups == UpgradeAll(db.groups)[gid := FOLLOW_GLOBAL]
  }

  lemma FreshResult(db: Db, d: Db, gid: GroupId, db': Db, w: Trace)
    requires FromV1(d, db', w) && db.users == [] && d.users == [] && d.codes == db.codes
    requires d.settings == DEFAULTS.(defaultGroup := Some(gid)) && gid in d.groups && d.groups[gid].isDefault
    requires if exists k :: k in db.groups && db.groups[k].isDefault then d.groups == db.groups
             else gid !in db.groups && d.groups == db.groups[gid := FOLLOW_GLOBAL]
    ensures StartsFresh(db, db')
  {
    assert w.base == d.groups && w.made == map[] && w.mid == d.groups by {
      assert forall t | t in w.made :: MadeFor(d.users, t);
    }
    forall c ensures c in db'.codes <==> c in db.codes {
      assert CodeAfter(d.users, d.codes, c) == if c in db'.codes then Some(db'.codes[c]) else None;
    }
    forall c | c in db.codes ensures db'.codes[c] == db.codes[c] {
      assert CodeAfter(d.users, d.codes, c) == if c in db'.codes then Some(db'.codes[c]) else None;
    }
    assert UpgradeAll(d.groups)[gid].isDefault;
  }

  /** `migrate`. */
  method Migrate(db: Db) returns (db': Db, ghost w: Trace)
    requires IdsFresh(db)
    ensures db'.version >= VERSION && IdsFresh(db')
    ensures db.version >= VERSION ==> db' == db
    ensures EffectiveVersion(db) == 1 ==> FromV1(db, db', w)
    ensures EffectiveVersion(db) == 2 ==> db' == db.(version := VERSION, groups := UpgradeAll(db.groups))
    ensures EffectiveVersion(db) < 1 ==> StartsFresh(db, db')
  {
    var v := EffectiveVersion(db);
    w := Trace(0, 0, 0, map[], GroupId(0), map[], map[]);
    if v >= VERSION {
      return db, w;
    }
    if v < 1 {
      var groups, gid, n := EnsureDefault(db.groups, db.nextId);
      var d := Db(1, DEFAULTS.(defaultGroup := Some(gid)), groups, db.users, db.codes, n);
      db', w := MigrateV1(d);
      FreshResult(db, d, gid, db', w);
      return;
    }
    if v < 2 {
      db', w := MigrateV1(db);
      return;
    }
    var groups := MigrateV2ToV3(db.groups);
    db' := db.(version := VERSION, groups := groups);
  }

  /** Running it again, as every start of the program does, changes nothing. */
  method MigrateTwice(db: Db) returns (once: Db, twice: Db)
    requires IdsFresh(db)
    ensures twice == once && once.version >= VERSION
  {
    ghost var w;
    once, w := Migrate(db);
    twice, w := Migrate(once);
  }

  // ---------------------------------------------------------------- what it means for users

  /** A legacy range is unset or proper, and the rule limit is not negative. */
  predicate ValidLegacy(u: User) {
    ((u.start == 0 && u.end == 0) || 1 <= u.start <= u.end <= 65535) && u.rules >= 0
  }

  function QuotaAfter(db': Db, i: nat): Quota
    requires i < |db'.users|
  {
    var u := db'.users[i];
    if u.admin then ADMIN
    else Resolve(if u.group.Some? && u.group.value in db'.groups then Some(db'.groups[u.group.value]) else None, db'.settings)
  }

  /** An explicit range or rule limit stays exactly what it was; whatever was not set follows the new
      global value.  A user without a quota gets what the default group says: the one there was, read
      as schema 2 reads it, or a new one, under which a user stands as with no group at all. */
  lemma MeaningKept(db: Db, db': Db, w: Trace, i: nat)
    requires FromV1(db, db', w) && i < |db.users| && ValidLegacy(db.users[i]) && !db.users[i].admin
    ensures var u, q, s := db.users[i], QuotaAfter(db', i), db'.settings;
            && (u.start > 0 ==> q.start == u.start && q.end == u.end && q.portSource == FromGroup)
            && (u.rules > 0 ==> q.rules == Limit(u.rules, FromGroup))
            && (Grouped(u) && u.start == 0 ==> q.start == s.start && q.end == s.end && q.portSource != FromGroup)
            && (Grouped(u) && u.rules == 0 ==> q.rules == Pick(-1, s.maxRules))
            && (Grouped(u) ==> q.codes == Pick(-1, s.maxCodes) && q.tunnels == Pick(-1, s.maxTunnels))
            && (!HasQuota(u) ==>
                  && db'.users[i].group == Some(w.dflt)
                  && if exists k :: k in db.groups && db.groups[k].isDefault
                     then w.dflt in db.groups && db.groups[w.dflt].isDefault && q == Resolve(Some(Upgrade(db.groups[w.dflt])), s)
                     else w.dflt !in db.groups && q == Resolve(None, s))
  {
    if HasQuota(db.users[i]) { QuotaKept(db, db', w, i); } else { DefaultGiven(db, db', w, i); }
  }

  lemma QuotaKept(db: Db, db': Db, w: Trace, i: nat)
    requires FromV1(db, db', w) && i < |db.users| && ValidLegacy(db.users[i]) && Grouped(db.users[i])
    ensures var u, q, s := db.users[i], QuotaAfter(db', i), db'.settings;
            && (if u.start > 0 then q.start == u.start && q.end == u.end && q.portSource == FromGroup
                else q.start == s.start && q.end == s.end && q.portSource != FromGroup)
            && q.rules == (if u.rules > 0 then Limit(u.rules, FromGroup) else Pick(-1, s.maxRules))
            && q.codes == Pick(-1, s.maxCodes) && q.tunnels == Pick(-1, s.maxTunnels)
  {
    assert Placed(w.made, w.dflt, db.users[i], db'.users[i]);
    var g := w.made[TripleOf(db.users[i])];
    assert db'.groups[g] == Upgrade(w.mid[g]);
  }

  lemma DefaultGiven(db: Db, db': Db, w: Trace, i: nat)
    requires FromV1(db, db', w) && i < |db.users| && !HasQuota(db.users[i]) && !db.users[i].admin
    ensures db'.users[i].group == Some(w.dflt) && w.dflt in db'.groups
    ensures QuotaAfter(db', i) == Resolve(Some(db'.groups[w.dflt]), db'.settings)
    ensures if exists k :: k in db.groups && db.groups[k].isDefault
            then w.dflt in db.groups && db.groups[w.dflt].isDefault && db'.groups[w.dflt] == Upgrade(db.groups[w.dflt])
            else w.dflt !in db.groups && QuotaAfter(db', i) == Resolve(None, db'.settings)
  {
    assert Placed(w.made, w.dflt, db.users[i], db'.users[i]);
    DefaultMeans(db, db', w);
  }

  /** What the default group says afterwards. */
  lemma DefaultMeans(db: Db, db': Db, w: Trace)
    requires FromV1(db, db', w)
    ensures w.dflt in db'.groups
    ensures if exists k :: k in db.groups && db.groups[k].isDefault
            then w.dflt in db.groups && db.groups[w.dflt].isDefault && db'.groups[w.dflt] == Upgrade(db.groups[w.dflt])
            else w.dflt !in db.groups && Resolve(Some(db'.groups[w.dflt]), db'.settings) == Resolve(None, db'.settings)
  {
    assert db'.groups[w.dflt] == Upgrade(w.base[w.dflt]);
  }

  /** Written settings stay: the range only grows, and only as far as some user's own range reaches; the rule
      limit only grows to some user's own; the other limits and a recorded default group are untouched.
      Unwritten settings start from 20000-29999 and 3, 3 and 10. */
  lemma SettingsKept(db: Db, db': Db, w: Trace)
    requires FromV1(db, db', w)
    ensures var s, now, unset := db.settings, db'.settings, db.settings.start == 0 && db.settings.end == 0;
            var start, end, rules := if unset then 20000 else s.start, if unset then 29999 else s.end, if unset then 10 else s.maxRules;
            && now.start <= start && (now.start == start || exists i :: 0 <= i < |db.users| && db.users[i].start == now.start)
            && now.end >= end && (now.end == end || now.end == 0 || exists i :: 0 <= i < |db.users| && db.users[i].end == now.end)
            && now.maxRules >= rules && (now.maxRules == rules || now.maxRules == 0 || exists i :: 0 <= i < |db.users| && db.users[i].rules == now.maxRules)
            && now.maxCodes == (if unset then 3 else s.maxCodes) && now.maxTunnels == (if unset then 3 else s.maxTunnels)
            && now.defaultGroup == Some(if s.defaultGroup.Some? then s.defaultGroup.value else w.dflt)
            && (forall i | 0 <= i < |db.users| :: db.users[i].end <= now.end && db.users[i].rules <= now.maxRules
                                                && (db.users[i].start > 0 ==> now.start <= db.users[i].start))
  {
  }

  /** Every user is still there, with its identifier and role; administrators have no group, the others
      one that exists, and nothing of the old quota or tunnel identity is left in the record. */
  lemma UsersKept(db: Db, db': Db, w: Trace, i: nat)
    requires FromV1(db, db', w) && i < |db.users|
    ensures |db'.users| == |db.users|
    ensures var u, v := db.users[i], db'.users[i];
            && v.id == u.id && v.admin == u.admin && v.tunIP == "" && v.secret == "" && v.start == v.end == v.rules == 0
            && (if u.admin then v.group == None else v.group.Some? && v.group.value in db'.groups)
  {
    assert Placed(w.made, w.dflt, db.users[i], db'.users[i]);
  }

  /** Users with an explicit quota share a group exactly when their triples agree, and never share
      one with a user who had none. */
  lemma ShareIffEqual(db: Db, db': Db, w: Trace, i: nat, j: nat)
    requires FromV1(db, db', w) && i < |db.users| && j < |db.users| && Grouped(db.users[i]) && !db.users[j].admin
    ensures db'.users[i].group == db'.users[j].group <==> Grouped(db.users[j]) && TripleOf(db.users[i]) == TripleOf(db.users[j])
  {
    assert Placed(w.made, w.dflt, db.users[i], db'.users[i]) && Placed(w.made, w.dflt, db.users[j], db'.users[j]);
    assert IsQuotaGroup(w.mid[w.made[TripleOf(db.users[i])]], TripleOf(db.users[i]));
    if Grouped(db.users[j]) {
      assert IsQuotaGroup(w.mid[w.made[TripleOf(db.users[j])]], TripleOf(db.users[j]));
    }
  }

  /** Every access code keeps its identifier, address and secret, a user that carried one gets it, and
      no other code appears. */
  lemma CodesKept(db: Db, db': Db, w: Trace, i: nat)
    requires FromV1(db, db', w) && DistinctUsers(db.users) && i < |db.users|
    ensures forall c | c in db.codes :: c in db'.codes && db'.codes[c] == db.codes[c]
    ensures var u := db.users[i];
            u.id !in db.codes ==>
              (u.id in db'.codes <==> CarriesCode(u)) && (CarriesCode(u) ==> db'.codes[u.id] == Code(u.id, u.tunIP, u.secret))
    ensures forall c | c in db'.codes :: c in db.codes || exists j :: 0 <= j < |db.users| && db.users[j].id == c
  {
    forall c | c in db'.codes && c !in db.codes ensures exists j :: 0 <= j < |db.users| && db.users[j].id == c {
      assert CodeAfter(db.users, db.codes, c) == Some(db'.codes[c]);
      if forall j | 0 <= j < |db.users| :: db.users[j].id != c { NoOtherCode(db.users, db.codes, c); }
    }
    forall c | c in db.codes ensures c in db'.codes && db'.codes[c] == db.codes[c] {
      assert CodeAfter(db.users, db.codes, c) == Some(db.codes[c]);
    }
    if db.users[i].id !in db.codes {
      CodeOfUser(db.users, db.codes, i);
      assert CodeAfter(db.users, db.codes, db.users[i].id) == if db.users[i].id in db'.codes then Some(db'.codes[db.users[i].id]) else None;
    }
  }

  lemma {:induction false} CodeOfUser(us: seq<User>, codes: map<UserId, Code>, i: nat)
    requires i < |us| && us[i].id !in codes
    requires DistinctUsers(us)
    ensures CodeAfter(us, codes, us[i].id) == if CarriesCode(us[i]) then Some(Code(us[i].id, us[i].tunIP, us[i].secret)) else None
    decreases |us|
  {
    var n := |us| - 1;
    if i < n {
      CodeOfUser(us[..n], codes, i);
    } else {
      NoOtherCode(us[..n], codes, us[n].id);
    }
  }

  lemma {:induction false} NoOtherCode(us: seq<User>, codes: map<UserId, Code>, c: UserId)
    requires c !in codes && forall j | 0 <= j < |us| :: us[j].id != c
    ensures CodeAfter(us, codes, c) == None
    decreases |us|
  {
    if us != [] {
      NoOtherCode(us[..|us| - 1], codes, c);
    }
  }

  // ---------------------------------------------------------------- the ceiling afterwards

  /** A schema 1 database: no groups yet, settings unwritten or with a proper range, valid users. */
  ghost predicate SchemaOne(db: Db) {
    && db.groups == map[] && (forall i | 0 <= i < |db.users| :: ValidLegacy(db.users[i]))
    && ((db.settings.start == 0 && db.settings.end == 0) || 1 <= db.settings.start <= db.settings.end <= 65535)
    && db.settings.maxCodes >= 0 && db.settings.maxTunnels >= 0 && db.settings.maxRules >= 0
  }

  lemma WidenedOk(db: Db, lo: int, hi: int, rules: int)
    requires SchemaOne(db) && Extremes(db.users, lo, hi, rules)
    ensures var s := Widen(Base(db.settings), lo, hi, rules);
            && SettingsOk(s) && IsRange(s.start, s.end)
            && forall i | 0 <= i < |db.users| :: (db.users[i].start > 0 ==> s.start <= db.users[i].start && db.users[i].end <= s.end)
                                               && db.users[i].rules <= s.maxRules
  {
  }

  function AdminState(db: Db): GA.State {
    GA.State(db.settings, db.groups, map[])
  }

  lemma MigratedGroupFits(db: Db, db': Db, w: Trace, k: GroupId)
    requires FromV1(db, db', w) && SchemaOne(db) && k in db'.groups
    ensures Fits(db'.groups[k], db'.settings) && (db'.groups[k].isDefault ==> k == w.dflt)
  {
    WidenedOk(db, w.lo, w.hi, w.rules);
    assert w.base == map[w.dflt := FOLLOW_GLOBAL];
    if k in w.base {
      assert w.mid[k] == FOLLOW_GLOBAL;
    } else {
      var t := TripleIn(w.mid[k]);
      assert IsQuotaGroup(w.mid[k], t) && MadeFor(db.users, t);
      var i :| 0 <= i < |db.users| && Grouped(db.users[i]) && TripleOf(db.users[i]) == t;
      assert ValidLegacy(db.users[i]);
    }
  }

  /** After the migration every group fits the new global settings and exactly one group is the
      default: what administration keeps from then on. */
  lemma MigratedFits(db: Db, db': Db, w: Trace)
    requires FromV1(db, db', w) && SchemaOne(db)
    ensures GA.Inv(AdminState(db')) && GA.HasDefault(db'.groups)
  {
    WidenedOk(db, w.lo, w.hi, w.rules);
    forall k | k in db'.groups ensures Fits(db'.groups[k], db'.settings) && (db'.groups[k].isDefault ==> k == w.dflt) {
      MigratedGroupFits(db, db', w, k);
    }
    assert db'.groups[w.dflt].isDefault;
  }
}
