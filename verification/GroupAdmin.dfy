/** Administration of global settings and user groups (internal/users/group.go:32-314,
    internal/storage/group.go:94-203): validation against the ceiling in both directions, and the
    single default group.  Names in requests are already trimmed. */
module GroupAdmin {
  import opened Prelude
  import opened Quotas

  /** `members` gives each user's group, or none. */
  datatype State = State(settings: Settings, groups: map<GroupId, Group>, members: map<UserId, Option<GroupId>>)

  /** A request: every field may be absent. */
  datatype SettingsPatch = SettingsPatch(start: Option<int>, end: Option<int>, maxCodes: Option<int>, maxTunnels: Option<int>,
                                         maxRules: Option<int>, defaultGroup: Option<Option<GroupId>>)
  datatype GroupPatch = GroupPatch(name: Option<string>, start: Option<int>, end: Option<int>, maxCodes: Option<int>,
                                   maxTunnels: Option<int>, maxRules: Option<int>, isDefault: Option<bool>)

  function Or<T>(o: Option<T>, old_: T): T { if o.Some? then o.value else old_ }

  function PatchSettings(s: Settings, p: SettingsPatch): Settings {
    Settings(Or(p.start, s.start), Or(p.end, s.end), Or(p.maxCodes, s.maxCodes), Or(p.maxTunnels, s.maxTunnels),
             Or(p.maxRules, s.maxRules), Or(p.defaultGroup, s.defaultGroup))
  }

  function PatchGroup(g: Group, p: GroupPatch): Group {
    Group(Or(p.name, g.name), Or(p.start, g.start), Or(p.end, g.end), Or(p.maxCodes, g.maxCodes),
          Or(p.maxTunnels, g.maxTunnels), Or(p.maxRules, g.maxRules), Or(p.isDefault, g.isDefault))
  }

  predicate NameOk(name: string) { 0 < |name| <= 64 }

  predicate NameTaken(gs: map<GroupId, Group>, id: GroupId, name: string) {
    exists k :: k in gs && k != id && gs[k].name == name
  }

  ghost predicate AllFit(gs: map<GroupId, Group>, s: Settings) {
    forall k | k in gs :: Fits(gs[k], s)
  }

  /** `SaveGroup`'s write: becoming the default takes the mark from every other group. */
  function Stored(gs: map<GroupId, Group>, id: GroupId, g: Group): map<GroupId, Group> {
    (map k | k in gs :: if g.isDefault && k != id then gs[k].(isDefault := false) else gs[k])[id := g]
  }

  datatype Op =
    | UpdateSettings(sp: SettingsPatch)
    | CreateGroup(id: GroupId, g: Group)
    | UpdateGroup(id: GroupId, gp: GroupPatch)
    | DeleteGroup(id: GroupId)
    | Assign(user: UserId, group: Option<GroupId>)

  /** Is the request accepted? */
  ghost predicate Accepts(s: State, op: Op) {
    match op
    case UpdateSettings(p) =>
      && (p.defaultGroup.Some? && p.defaultGroup.value.Some? ==> p.defaultGroup.value.value in s.groups)
      && SettingsOk(PatchSettings(s.settings, p)) && AllFit(s.groups, PatchSettings(s.settings, p))
    case CreateGroup(id, g) => NameOk(g.name) && Fits(g, s.settings) && !NameTaken(s.groups, id, g.name)
    case UpdateGroup(id, p) =>
      && id in s.groups && (p.name.Some? ==> NameOk(p.name.value))
      && !(p.isDefault == Some(false) && s.groups[id].isDefault)
      && Fits(PatchGroup(s.groups[id], p), s.settings)
      && !NameTaken(s.groups, id, PatchGroup(s.groups[id], p).name)
    case DeleteGroup(id) =>
      id in s.groups && !s.groups[id].isDefault && forall u | u in s.members :: s.members[u] != Some(id)
    case Assign(_, _) => true
  }

  function Effect(s: State, op: Op): State {
    match op
    case UpdateSettings(p) => s.(settings := PatchSettings(s.settings, p))
    case CreateGroup(id, g) =>
      s.(groups := Stored(s.groups, id, g), settings := if g.isDefault then s.settings.(defaultGroup := Some(id)) else s.settings)
    case UpdateGroup(id, p) =>
      if id !in s.groups then s else
      var g := PatchGroup(s.groups[id], p);
      s.(groups := Stored(s.groups, id, g), settings := if g.isDefault then s.settings.(defaultGroup := Some(id)) else s.settings)
    case DeleteGroup(id) => s.(groups := s.groups - {id})
    case Assign(u, g) => s.(members := s.members[u := g])
  }

  ghost function Next(s: State, op: Op): State {
    if Accepts(s, op) then Effect(s, op) else s
  }

  ghost function Run(s: State, ops: seq<Op>): State
    decreases |ops|
  {
    if ops == [] then s else Next(Run(s, ops[..|ops| - 1]), ops[|ops| - 1])
  }

  // ---------------------------------------------------------------- what every operation keeps

  ghost predicate OneDefault(gs: map<GroupId, Group>) {
    forall j, k | j in gs && k in gs && gs[j].isDefault && gs[k].isDefault :: j == k
  }

  ghost predicate HasDefault(gs: map<GroupId, Group>) {
    exists k :: k in gs && gs[k].isDefault
  }

  ghost predicate Inv(s: State) {
    SettingsOk(s.settings) && AllFit(s.groups, s.settings) && OneDefault(s.groups)
  }

  lemma StoredKeeps(s: State, id: GroupId, g: Group)
    requires Inv(s) && Fits(g, s.settings)
    requires !g.isDefault && id in s.groups ==> !s.groups[id].isDefault
    ensures AllFit(Stored(s.groups, id, g), s.settings) && OneDefault(Stored(s.groups, id, g))
    ensures HasDefault(s.groups) || g.isDefault ==> HasDefault(Stored(s.groups, id, g))
  {
    var gs := Stored(s.groups, id, g);
    assert gs[id] == g;
    if HasDefault(s.groups) && !g.isDefault {
      var k :| k in s.groups && s.groups[k].isDefault;
      assert gs[k].isDefault;
    }
  }

  lemma StepKeeps(s: State, op: Op)
    requires Inv(s) && (op.CreateGroup? ==> op.id !in s.groups)
    ensures Inv(Next(s, op))
    ensures HasDefault(s.groups) ==> HasDefault(Next(s, op).groups)
  {
    if Accepts(s, op) {
      match op
      case CreateGroup(id, g) => StoredKeeps(s, id, g);
      case UpdateGroup(id, p) => StoredKeeps(s, id, PatchGroup(s.groups[id], p));
      case DeleteGroup(id) =>
        if HasDefault(s.groups) {
          var k :| k in s.groups && s.groups[k].isDefault;
          assert Next(s, op).groups[k].isDefault;
        }
      case _ =>
    }
  }

  /** New groups get identifiers not in use. */
  ghost predicate FreshIds(s: State, ops: seq<Op>)
    decreases |ops|
  {
    ops == [] ||
    var init, op := ops[..|ops| - 1], ops[|ops| - 1];
    FreshIds(s, init) && (op.CreateGroup? ==> op.id !in Run(s, init).groups)
  }

  lemma {:induction false} RunKeeps(s: State, ops: seq<Op>)
    requires Inv(s) && FreshIds(s, ops)
    ensures Inv(Run(s, ops)) && (HasDefault(s.groups) ==> HasDefault(Run(s, ops).groups))
    decreases |ops|
  {
    if ops != [] {
      RunKeeps(s, ops[..|ops| - 1]);
      StepKeeps(Run(s, ops[..|ops| - 1]), ops[|ops| - 1]);
    }
  }

  /** `EffectiveQuota` of a user who is no administrator; a missing group falls back to the globals. */
  function QuotaOf(s: State, u: UserId): Quota {
    var gid := if u in s.members then s.members[u] else None;
    Resolve(if gid.Some? && gid.value in s.groups then Some(s.groups[gid.value]) else None, s.settings)
  }

  /** Over every run of accepted and refused edits, no user can open a port outside a configured
      global range or exceed a configured global limit. */
  lemma NoUserEscapes(s: State, ops: seq<Op>, u: UserId, port: int)
    requires Inv(s) && FreshIds(s, ops)
    ensures var t := Run(s, ops); var q := QuotaOf(t, u);
            && (IsRange(t.settings.start, t.settings.end) && PortAllowed(q, port)
                ==> t.settings.start <= port <= t.settings.end)
            && UnderCeiling(q.codes, t.settings.maxCodes) && UnderCeiling(q.tunnels, t.settings.maxTunnels)
            && UnderCeiling(q.rules, t.settings.maxRules)
  {
    RunKeeps(s, ops);
    var t := Run(s, ops);
    var gid := if u in t.members then t.members[u] else None;
    FittingGroupIsBounded(if gid.Some? && gid.value in t.groups then Some(t.groups[gid.value]) else None, t.settings, port);
  }

  /** The settings' default group and the marked group can part: settings accept any existing group
      as default, and deletion looks at the mark only, so the recorded default may no longer exist. */
  lemma DefaultMayDangle(s: State, id: GroupId)
    requires Inv(s) && id in s.groups && !s.groups[id].isDefault
    requires forall u | u in s.members :: s.members[u] != Some(id)
    ensures var ops := [UpdateSettings(SettingsPatch(None, None, None, None, None, Some(Some(id)))), DeleteGroup(id)];
            Run(s, ops).settings.defaultGroup == Some(id) && id !in Run(s, ops).groups
  {
    var p := SettingsPatch(None, None, None, None, None, Some(Some(id)));
    var op1, op2 := UpdateSettings(p), DeleteGroup(id);
    var ops := [op1, op2];
    assert ops[..1] == [op1] && [op1][..0] == [];
    assert forall k | k in s.groups :: Fits(s.groups[k], PatchSettings(s.settings, p)) by {
      forall k | k in s.groups ensures Fits(s.groups[k], PatchSettings(s.settings, p)) { assert Fits(s.groups[k], s.settings); }
    }
    var s1 := Next(s, op1);
    assert Run(s, [op1]) == s1;
    assert Run(s, ops) == Next(s1, op2);
  }

  /** The recorded default group, if any, exists. */
  predicate RecordedExists(s: State) {
    s.settings.defaultGroup.Some? ==> s.settings.defaultGroup.value in s.groups
  }

  /** An accepted deletion of the group that the settings record as the default. */
  ghost predicate DropsRecorded(s: State, op: Op) {
    op.DeleteGroup? && Accepts(s, op) && s.settings.defaultGroup == Some(op.id)
  }

  ghost predicate AlwaysRecorded(s: State, ops: seq<Op>)
    decreases |ops|
  {
    RecordedExists(Run(s, ops)) && (ops == [] || AlwaysRecorded(s, ops[..|ops| - 1]))
  }

  ghost predicate NeverDropsRecorded(s: State, ops: seq<Op>)
    decreases |ops|
  {
    ops == [] || (NeverDropsRecorded(s, ops[..|ops| - 1]) && !DropsRecorded(Run(s, ops[..|ops| - 1]), ops[|ops| - 1]))
  }

  /** Over every run: the recorded default exists at every moment if and only if no deletion of it
      is accepted. */
  lemma {:induction false} RecordedDefaultIff(s: State, ops: seq<Op>)
    requires RecordedExists(s)
    ensures AlwaysRecorded(s, ops) <==> NeverDropsRecorded(s, ops)
    decreases |ops|
  {
    if ops != [] {
      RecordedDefaultIff(s, ops[..|ops| - 1]);
    }
  }

  // ---------------------------------------------------------------- the service object

  /** A field of a request sets its value; an absent one leaves it. */
  predicate SetTo<T(==)>(field: Option<T>, was: T, now: T) { now == match field case Some(v) => v case None => was }

  /** Every field of the settings after the request. */
  predicate SettingsEdited(was: Settings, p: SettingsPatch, now: Settings) {
    && SetTo(p.start, was.start, now.start) && SetTo(p.end, was.end, now.end) && SetTo(p.maxCodes, was.maxCodes, now.maxCodes)
    && SetTo(p.maxTunnels, was.maxTunnels, now.maxTunnels) && SetTo(p.maxRules, was.maxRules, now.maxRules)
    && SetTo(p.defaultGroup, was.defaultGroup, now.defaultGroup)
  }

  /** Every field of the edited group. */
  predicate GroupEdited(was: Group, p: GroupPatch, now: Group) {
    && SetTo(p.name, was.name, now.name) && SetTo(p.start, was.start, now.start) && SetTo(p.end, was.end, now.end)
    && SetTo(p.maxCodes, was.maxCodes, now.maxCodes) && SetTo(p.maxTunnels, was.maxTunnels, now.maxTunnels)
    && SetTo(p.maxRules, was.maxRules, now.maxRules) && SetTo(p.isDefault, was.isDefault, now.isDefault)
  }

  /** The group is stored under its identifier; the others stay, but for the default mark if this one
      takes it. */
  ghost predicate Holds(was: map<GroupId, Group>, id: GroupId, g: Group, now: map<GroupId, Group>) {
    && now.Keys == was.Keys + {id} && now[id] == g
    && forall k | k in was && k != id :: now[k] == if g.isDefault then was[k].(isDefault := false) else was[k]
  }

  /** A settings request is accepted exactly if the group it names as the default exists, the values are
      valid and every group fits them; then those fields change, and else nothing. */
  ghost predicate SettingsAnswered(s: State, p: SettingsPatch, ok: bool, s': State) {
    && (forall next | SettingsEdited(s.settings, p, next) ::
          ok <==> && (p.defaultGroup.Some? && p.defaultGroup.value.Some? ==> p.defaultGroup.value.value in s.groups)
                  && SettingsOk(next) && forall k | k in s.groups :: Fits(s.groups[k], next))
    && (if ok then SettingsEdited(s.settings, p, s'.settings) && s' == s.(settings := s'.settings) else s' == s)
  }

  lemma SettingsSay(s: State, p: SettingsPatch)
    ensures SettingsAnswered(s, p, Accepts(s, UpdateSettings(p)), Next(s, UpdateSettings(p)))
  {
    forall next | SettingsEdited(s.settings, p, next) ensures next == PatchSettings(s.settings, p) {}
  }

  /** A group edit is accepted exactly if the group exists, a new name is valid, the mark is not taken off
      directly, and the edited group fits the settings and has a name of its own. */
  ghost predicate EditAnswered(s: State, id: GroupId, p: GroupPatch, ok: bool, s': State) {
    && (forall g | id in s.groups && GroupEdited(s.groups[id], p, g) ::
          ok <==> && (p.name.Some? ==> 1 <= |g.name| <= 64) && !(s.groups[id].isDefault && !g.isDefault)
                  && Fits(g, s.settings) && forall k | k in s.groups && k != id :: s.groups[k].name != g.name)
    && (ok ==> id in s.groups)
    && if ok then
         && id in s'.groups && GroupEdited(s.groups[id], p, s'.groups[id]) && Holds(s.groups, id, s'.groups[id], s'.groups)
         && s' == s.(groups := s'.groups,
                     settings := s.settings.(defaultGroup := if s'.groups[id].isDefault then Some(id) else s.settings.defaultGroup))
       else s' == s
  }

  lemma EditSays(s: State, id: GroupId, p: GroupPatch)
    ensures EditAnswered(s, id, p, Accepts(s, UpdateGroup(id, p)), Next(s, UpdateGroup(id, p)))
  {
    if id in s.groups {
      forall g | GroupEdited(s.groups[id], p, g) ensures g == PatchGroup(s.groups[id], p) {}
      StoredHolds(s.groups, id, PatchGroup(s.groups[id], p));
    }
  }

  lemma StoredHolds(gs: map<GroupId, Group>, id: GroupId, g: Group)
    ensures Holds(gs, id, g, Stored(gs, id, g))
  {
  }

  class AdminService {
    var settings: Settings
    var groups: map<GroupId, Group>
    var members: map<UserId, Option<GroupId>>

    ghost function View(): State
      reads this
    {
      State(settings, groups, members)
    }

    constructor (s: State)
      ensures View() == s
    {
      settings, groups, members := s.settings, s.groups, s.members;
    }

    /** The conflict scan of a settings update. */
    method AnyConflict(next: Settings) returns (conflict: bool)
      ensures conflict == !AllFit(groups, next)
    {
      conflict := false;
      var todo := groups.Keys;
      while todo != {}
        invariant todo <= groups.Keys
        invariant conflict == exists k :: k in groups && k !in todo && !Fits(groups[k], next)
        decreases todo
      {
        var k :| k in todo;
        if !Fits(groups[k], next) {
          conflict := true;
        }
        todo := todo - {k};
      }
    }

    method ApplySettings(p: SettingsPatch) returns (ok: bool)
      modifies this`settings
      ensures ok == Accepts(old(View()), UpdateSettings(p)) && View() == Next(old(View()), UpdateSettings(p))
      ensures SettingsAnswered(old(View()), p, ok, View())
    {
      SettingsSay(View(), p);
      var next := settings;
      if p.start.Some? { next := next.(start := p.start.value); }
      if p.end.Some? { next := next.(end := p.end.value); }
      if p.maxCodes.Some? { next := next.(maxCodes := p.maxCodes.value); }
      if p.maxTunnels.Some? { next := next.(maxTunnels := p.maxTunnels.value); }
      if p.maxRules.Some? { next := next.(maxRules := p.maxRules.value); }
      if p.defaultGroup.Some? {
        if p.defaultGroup.value.Some? && p.defaultGroup.value.value !in groups {
          return false;
        }
        next := next.(defaultGroup := p.defaultGroup.value);
      }
      assert next == PatchSettings(settings, p);
      if !SettingsOk(next) {
        return false;
      }
      var conflict := AnyConflict(next);
      if conflict {
        return false;
      }
      settings := next;
      return true;
    }

    /** `SaveGroup`: the name check and the default mark in one pass over the other groups. */
    method SaveGroup(id: GroupId, g: Group) returns (ok: bool)
      modifies this`groups
      ensures ok == !NameTaken(old(groups), id, g.name)
      ensures groups == if ok then Stored(old(groups), id, g) else old(groups)
      ensures ok <==> forall k | k in old(groups) && k != id :: old(groups)[k].name != g.name
      ensures ok ==> Holds(old(groups), id, g, groups)
    {
      var dup := false;
      var todo := groups.Keys - {id};
      while todo != {}
        invariant todo <= groups.Keys - {id}
        invariant dup == exists k :: k in groups && k != id && k !in todo && groups[k].name == g.name
        decreases todo
      {
        var k :| k in todo;
        dup := dup || groups[k].name == g.name;
        todo := todo - {k};
      }
      if dup {
        return false;
      }
      if g.isDefault {
        ClearMarks(id);
      }
      groups := groups[id := g];
      assert groups == Stored(old(groups), id, g);
      return true;
    }

    method ClearMarks(id: GroupId)
      modifies this`groups
      ensures groups == map k | k in old(groups) :: if k != id then old(groups)[k].(isDefault := false) else old(groups)[k]
    {
      var todo := groups.Keys - {id};
      while todo != {}
        invariant todo <= old(groups).Keys - {id}
        invariant groups == map k | k in old(groups) :: if k != id && k !in todo then old(groups)[k].(isDefault := false) else old(groups)[k]
        decreases todo
      {
        var k :| k in todo;
        if groups[k].isDefault {
          groups := groups[k := groups[k].(isDefault := false)];
        }
        todo := todo - {k};
      }
    }

    method AddGroup(id: GroupId, g: Group) returns (ok: bool)
      modifies this
      ensures ok == Accepts(old(View()), CreateGroup(id, g)) && View() == Next(old(View()), CreateGroup(id, g))
      ensures ok <==> 1 <= |g.name| <= 64 && Fits(g, old(settings)) && forall k | k in old(groups) && k != id :: old(groups)[k].name != g.name
      ensures if ok then Holds(old(groups), id, g, groups)
                         && settings == old(settings).(defaultGroup := if g.isDefault then Some(id) else old(settings).defaultGroup)
              else View() == old(View())
    {
      if !NameOk(g.name) || !Fits(g, settings) {
        return false;
      }
      ok := SaveGroup(id, g);
      if ok && g.isDefault {
        settings := settings.(defaultGroup := Some(id));
      }
    }

    /** The numbers of a group request, field by field. */
    static method PatchNumbers(was: Group, p: GroupPatch) returns (g: Group)
      ensures g == PatchGroup(was, p.(name := None, isDefault := None))
    {
      g := was;
      if p.start.Some? { g := g.(start := p.start.value); }
      if p.end.Some? { g := g.(end := p.end.value); }
      if p.maxCodes.Some? { g := g.(maxCodes := p.maxCodes.value); }
      if p.maxTunnels.Some? { g := g.(maxTunnels := p.maxTunnels.value); }
      if p.maxRules.Some? { g := g.(maxRules := p.maxRules.value); }
    }

    method EditGroup(id: GroupId, p: GroupPatch) returns (ok: bool)
      modifies this
      ensures ok == Accepts(old(View()), UpdateGroup(id, p)) && View() == Next(old(View()), UpdateGroup(id, p))
      ensures EditAnswered(old(View()), id, p, ok, View())
    {
      EditSays(View(), id, p);
      if id !in groups {
        return false;
      }
      var g := groups[id];
      if p.name.Some? {
        g := g.(name := p.name.value);
        if !NameOk(g.name) {
          return false;
        }
      }
      g := PatchNumbers(g, p);
      if p.isDefault.Some? {
        if !p.isDefault.value && g.isDefault {
          return false;
        }
        g := g.(isDefault := p.isDefault.value);
      }
      assert g == PatchGroup(groups[id], p);
      if !Fits(g, settings) {
        return false;
      }
      ok := SaveGroup(id, g);
      if ok && g.isDefault && settings.defaultGroup != Some(id) {
        settings := settings.(defaultGroup := Some(id));
      }
    }

    method RemoveGroup(id: GroupId) returns (ok: bool)
      modifies this`groups
      ensures ok == Accepts(old(View()), DeleteGroup(id)) && View() == Next(old(View()), DeleteGroup(id))
      ensures ok <==> id in old(groups) && !old(groups)[id].isDefault && forall u | u in members :: members[u] != Some(id)
      ensures groups == if ok then old(groups) - {id} else old(groups)
    {
      if id !in groups || groups[id].isDefault {
        return false;
      }
      var n := 0;
      var todo := members.Keys;
      while todo != {}
        invariant todo <= members.Keys && n >= 0
        invariant n == 0 <==> forall u | u in members && u !in todo :: members[u] != Some(id)
        decreases todo
      {
        var u :| u in todo;
        if members[u] == Some(id) {
          n := n + 1;
        }
        todo := todo - {u};
      }
      if n > 0 {
        return false;
      }
      groups := groups - {id};
      return true;
    }
  }
}
