/** Concurrent administration (internal/users/group.go:32-111, 175-278): an edit of the settings or of
    a group reads, checks and writes in separate transactions, so edits interleave.  One step here is
    one transaction; a request between two of its transactions holds what it has read so far. */
module GroupRaces {
  import opened Prelude
  import opened Quotas
  import opened GroupAdmin

  datatype ReqId = ReqId(n: nat)

  datatype Pending =
    // a settings edit: patched, then its default group looked up and the values validated, then all
    // groups of the listing `seen` found to fit
    | Patched(next: Settings, wanted: Option<GroupId>)
    | Valid(next: Settings)
    | Listed(next: Settings, seen: map<GroupId, Group>)
    // a group edit: fetched, then validated against the settings `cfg` it read
    | Fetched(id: GroupId, g: Group)
    | Ready(id: GroupId, g: Group, cfg: Settings)
    // saved as the default: `cfg` is to be written back with the new default recorded
    | Marking(id: GroupId, cfg: Settings)

  datatype World = World(st: State, pending: map<ReqId, Pending>)

  datatype Act =
    | BeginSettings(r: ReqId, sp: SettingsPatch)
    | LookUpDefault(r: ReqId)
    | ListGroups(r: ReqId)
    | SaveSettings(r: ReqId)
    | BeginCreate(r: ReqId, id: GroupId, g: Group)
    | FetchGroup(r: ReqId, id: GroupId)
    | Validate(r: ReqId, gp: GroupPatch)
    | SaveGroup(r: ReqId)
    | SaveDefault(r: ReqId)
    | Fail(r: ReqId)
    | Other(op: Op)

  /** Is the step the next one of its request? */
  ghost predicate Can(w: World, a: Act) {
    match a
    case BeginSettings(r, _) => r !in w.pending
    case LookUpDefault(r) => r in w.pending && w.pending[r].Patched?
    case ListGroups(r) => r in w.pending && w.pending[r].Valid?
    case SaveSettings(r) => r in w.pending && w.pending[r].Listed?
    // a new group gets an identifier used nowhere
    case BeginCreate(r, id, _) => r !in w.pending && id !in w.st.groups && w.st.settings.defaultGroup != Some(id)
    case FetchGroup(r, _) => r !in w.pending
    case Validate(r, _) => r in w.pending && w.pending[r].Fetched?
    case SaveGroup(r) => r in w.pending && w.pending[r].Ready?
    case SaveDefault(r) => r in w.pending && w.pending[r].Marking?
    case Fail(r) => r in w.pending
    // deletion and assignment are one transaction each
    case Other(op) => op.DeleteGroup? || op.Assign?
  }

  function Holding(w: World, r: ReqId, p: Pending): World {
    w.(pending := w.pending[r := p])
  }

  function Done(w: World, r: ReqId): World {
    w.(pending := w.pending - {r})
  }

  ghost function Next(w: World, a: Act): World {
    if !Can(w, a) then w else
    match a
    case BeginSettings(r, p) =>
      Holding(w, r, Patched(PatchSettings(w.st.settings, p), if p.defaultGroup.Some? then p.defaultGroup.value else None))
    case LookUpDefault(r) =>
      var p := w.pending[r];
      if (p.wanted.Some? ==> p.wanted.value in w.st.groups) && SettingsOk(p.next)
      then Holding(w, r, Valid(p.next)) else Done(w, r)
    case ListGroups(r) =>
      var next := w.pending[r].next;
      if AllFit(w.st.groups, next) then Holding(w, r, Listed(next, w.st.groups)) else Done(w, r)
    case SaveSettings(r) => Done(w.(st := w.st.(settings := w.pending[r].next)), r)
    case BeginCreate(r, id, g) =>
      if NameOk(g.name) && Fits(g, w.st.settings) then Holding(w, r, Ready(id, g, w.st.settings)) else w
    case FetchGroup(r, id) => if id in w.st.groups then Holding(w, r, Fetched(id, w.st.groups[id])) else w
    case Validate(r, p) =>
      var was := w.pending[r].g;
      var g := PatchGroup(was, p);
      if (p.name.Some? ==> NameOk(p.name.value)) && !(p.isDefault == Some(false) && was.isDefault) && Fits(g, w.st.settings)
      then Holding(w, r, Ready(w.pending[r].id, g, w.st.settings)) else Done(w, r)
    case SaveGroup(r) =>
      var p := w.pending[r];
      if NameTaken(w.st.groups, p.id, p.g.name) then Done(w, r) else
      var w' := w.(st := w.st.(groups := Stored(w.st.groups, p.id, p.g)));
      if p.g.isDefault && p.cfg.defaultGroup != Some(p.id) then Holding(w', r, Marking(p.id, p.cfg)) else Done(w', r)
    case SaveDefault(r) =>
      var p := w.pending[r];
      Done(w.(st := w.st.(settings := p.cfg.(defaultGroup := Some(p.id)))), r)
    case Fail(r) => Done(w, r)
    case Other(op) => w.(st := GroupAdmin.Next(w.st, op))
  }

  ghost function After(w: World, acts: seq<Act>): World
    decreases |acts|
  {
    if acts == [] then w else Next(After(w, acts[..|acts| - 1]), acts[|acts| - 1])
  }

  function Begin(s: State): World { World(s, map[]) }

  // ---------------------------------------------------------------- in a row, the steps are the whole edit

  lemma AfterAlso(w: World, acts: seq<Act>, a: Act)
    ensures After(w, acts + [a]) == Next(After(w, acts), a)
  {
    assert (acts + [a])[..|acts|] == acts;
  }

  lemma AfterThree(w: World, a: Act, b: Act, c: Act)
    ensures After(w, [a, b, c]) == Next(Next(Next(w, a), b), c)
  {
    AfterAlso(w, [], a);
    AfterAlso(w, [a], b);
    AfterAlso(w, [a, b], c);
    assert [] + [a] == [a] && [a] + [b] == [a, b] && [a, b] + [c] == [a, b, c];
  }

  /** The four transactions of a settings edit with nothing in between are the whole edit. */
  lemma SettingsInARow(w: World, r: ReqId, p: SettingsPatch)
    requires r !in w.pending
    ensures After(w, [BeginSettings(r, p), LookUpDefault(r), ListGroups(r), SaveSettings(r)]).st
         == GroupAdmin.Next(w.st, UpdateSettings(p))
  {
    AfterThree(w, BeginSettings(r, p), LookUpDefault(r), ListGroups(r));
    AfterAlso(w, [BeginSettings(r, p), LookUpDefault(r), ListGroups(r)], SaveSettings(r));
    assert [BeginSettings(r, p), LookUpDefault(r), ListGroups(r)] + [SaveSettings(r)]
        == [BeginSettings(r, p), LookUpDefault(r), ListGroups(r), SaveSettings(r)];
  }

  lemma CreateInARow(w: World, r: ReqId, id: GroupId, g: Group)
    requires r !in w.pending && id !in w.st.groups && w.st.settings.defaultGroup != Some(id)
    ensures After(w, [BeginCreate(r, id, g), SaveGroup(r), SaveDefault(r)]).st == GroupAdmin.Next(w.st, CreateGroup(id, g))
  {
    AfterThree(w, BeginCreate(r, id, g), SaveGroup(r), SaveDefault(r));
  }

  lemma UpdateInARow(w: World, r: ReqId, id: GroupId, p: GroupPatch)
    requires r !in w.pending
    ensures After(w, [FetchGroup(r, id), Validate(r, p), SaveGroup(r), SaveDefault(r)]).st
         == GroupAdmin.Next(w.st, UpdateGroup(id, p))
  {
    AfterThree(w, FetchGroup(r, id), Validate(r, p), SaveGroup(r));
    AfterAlso(w, [FetchGroup(r, id), Validate(r, p), SaveGroup(r)], SaveDefault(r));
    assert [FetchGroup(r, id), Validate(r, p), SaveGroup(r)] + [SaveDefault(r)]
        == [FetchGroup(r, id), Validate(r, p), SaveGroup(r), SaveDefault(r)];
    FetchAndValidate(w, r, id, p);
    var w2 := Next(Next(w, FetchGroup(r, id)), Validate(r, p));
    if r in w2.pending {
      SaveAndMark(w2, r);
    }
  }

  lemma FetchAndValidate(w: World, r: ReqId, id: GroupId, p: GroupPatch)
    requires r !in w.pending
    ensures var w2 := Next(Next(w, FetchGroup(r, id)), Validate(r, p));
            && w2.st == w.st
            && (r in w2.pending ==> id in w.st.groups
                                    && w2.pending[r] == Ready(id, PatchGroup(w.st.groups[id], p), w.st.settings))
            && (r in w2.pending <==> id in w.st.groups && (p.name.Some? ==> NameOk(p.name.value))
                                     && !(p.isDefault == Some(false) && w.st.groups[id].isDefault)
                                     && Fits(PatchGroup(w.st.groups[id], p), w.st.settings))
  {
  }

  lemma SaveAndMark(w: World, r: ReqId)
    requires r in w.pending && w.pending[r].Ready? && w.pending[r].cfg == w.st.settings
    ensures var p, st := w.pending[r], Next(Next(w, SaveGroup(r)), SaveDefault(r)).st;
            if NameTaken(w.st.groups, p.id, p.g.name) then st == w.st
            else st == w.st.(groups := Stored(w.st.groups, p.id, p.g),
                             settings := if p.g.isDefault then w.st.settings.(defaultGroup := Some(p.id)) else w.st.settings)
  {
  }

  // ---------------------------------------------------------------- the condition at the writes

  /** What a write would have to check again: that everything stored now fits the settings about to
      be written, or that the group about to be written fits the settings stored now. */
  ghost predicate Passes(w: World, a: Act) {
    Can(w, a) ==>
      match a
      case SaveSettings(r) => AllFit(w.st.groups, w.pending[r].next)
      case SaveDefault(r) => AllFit(w.st.groups, w.pending[r].cfg)
      case SaveGroup(r) => NameTaken(w.st.groups, w.pending[r].id, w.pending[r].g.name) || Fits(w.pending[r].g, w.st.settings)
      case _ => true
  }

  /** What a request holds passed its own checks when they were made. */
  ghost predicate Checked(p: Pending) {
    match p
    case Patched(_, _) => true
    case Valid(next) => SettingsOk(next)
    case Listed(next, seen) => SettingsOk(next) && AllFit(seen, next)
    case Fetched(_, _) => true
    case Ready(_, g, cfg) => SettingsOk(cfg) && Fits(g, cfg)
    case Marking(_, cfg) => SettingsOk(cfg)
  }

  /** What no interleaving breaks. */
  ghost predicate Sane(w: World) {
    && SettingsOk(w.st.settings) && OneDefault(w.st.groups)
    && forall r | r in w.pending :: Checked(w.pending[r])
  }

  lemma StepSane(w: World, a: Act)
    requires Sane(w)
    ensures Sane(Next(w, a))
  {
    if Can(w, a) && a.SaveGroup? {
      assert Checked(w.pending[a.r]);
    }
  }

  /** One step keeps every group within the ceiling exactly if its write still passes. */
  lemma StepFitsIff(w: World, a: Act)
    requires Sane(w) && AllFit(w.st.groups, w.st.settings)
    ensures AllFit(Next(w, a).st.groups, Next(w, a).st.settings) <==> Passes(w, a)
  {
    var w' := Next(w, a);
    if Can(w, a) {
      match a
      case SaveGroup(r) => SavedFitsIff(w.st.groups, w.pending[r].id, w.pending[r].g, w.st.settings);
      case SaveDefault(r) =>
        var cfg := w.pending[r].cfg;
        assert forall g: Group :: Fits(g, cfg) == Fits(g, w'.st.settings);
      case _ =>
    }
  }

  lemma SavedFitsIff(gs: map<GroupId, Group>, id: GroupId, g: Group, s: Settings)
    requires AllFit(gs, s)
    ensures AllFit(Stored(gs, id, g), s) <==> Fits(g, s)
  {
    assert Stored(gs, id, g)[id] == g;
  }

  lemma {:induction false} RunSane(w: World, acts: seq<Act>)
    requires Sane(w)
    ensures Sane(After(w, acts))
    decreases |acts|
  {
    if acts != [] {
      RunSane(w, acts[..|acts| - 1]);
      StepSane(After(w, acts[..|acts| - 1]), acts[|acts| - 1]);
    }
  }

  ghost predicate AlwaysInv(w: World, acts: seq<Act>)
    decreases |acts|
  {
    Inv(After(w, acts).st) && (acts == [] || AlwaysInv(w, acts[..|acts| - 1]))
  }

  ghost predicate AlwaysPasses(w: World, acts: seq<Act>)
    decreases |acts|
  {
    acts == [] || (AlwaysPasses(w, acts[..|acts| - 1]) && Passes(After(w, acts[..|acts| - 1]), acts[|acts| - 1]))
  }

  /** Over every interleaving of any number of edits: all groups stay within the global ceiling, the
      settings well formed and the default unique at every moment, if and only if each write would
      still pass its own check at the moment it is made. */
  lemma {:induction false} WithinCeilingIff(w: World, acts: seq<Act>)
    requires Sane(w) && Inv(w.st)
    ensures AlwaysInv(w, acts) <==> AlwaysPasses(w, acts)
    decreases |acts|
  {
    if acts != [] {
      var init := acts[..|acts| - 1];
      WithinCeilingIff(w, init);
      RunSane(w, init);
      StepSane(After(w, init), acts[|acts| - 1]);
      if AlwaysInv(w, init) {
        StepFitsIff(After(w, init), acts[|acts| - 1]);
      }
    }
  }

  // ---------------------------------------------------------------- the default mark

  /** A write that puts back a copy of the default group read before it became the default. */
  ghost predicate Unmarks(w: World, a: Act) {
    && Can(w, a) && a.SaveGroup?
    && var p := w.pending[a.r];
       !NameTaken(w.st.groups, p.id, p.g.name) && !p.g.isDefault && p.id in w.st.groups && w.st.groups[p.id].isDefault
  }

  lemma StepMarkIff(w: World, a: Act)
    requires Sane(w) && HasDefault(w.st.groups)
    ensures HasDefault(Next(w, a).st.groups) <==> !Unmarks(w, a)
  {
    var k :| k in w.st.groups && w.st.groups[k].isDefault;
    var gs' := Next(w, a).st.groups;
    if Can(w, a) && a.SaveGroup? && !NameTaken(w.st.groups, w.pending[a.r].id, w.pending[a.r].g.name) {
      var p := w.pending[a.r];
      assert gs'[p.id] == p.g;
      if p.id != k && !p.g.isDefault { assert gs'[k].isDefault; }
    } else {
      assert gs'[k].isDefault;
    }
  }

  ghost predicate AlwaysMarked(w: World, acts: seq<Act>)
    decreases |acts|
  {
    HasDefault(After(w, acts).st.groups) && (acts == [] || AlwaysMarked(w, acts[..|acts| - 1]))
  }

  ghost predicate NeverUnmarks(w: World, acts: seq<Act>)
    decreases |acts|
  {
    acts == [] || (NeverUnmarks(w, acts[..|acts| - 1]) && !Unmarks(After(w, acts[..|acts| - 1]), acts[|acts| - 1]))
  }

  /** A default group, once there, stays at every moment if and only if no edit of a group that was
      read unmarked is written after that group has become the default. */
  lemma {:induction false} DefaultKeptIff(w: World, acts: seq<Act>)
    requires Sane(w) && HasDefault(w.st.groups)
    ensures AlwaysMarked(w, acts) <==> NeverUnmarks(w, acts)
    decreases |acts|
  {
    if acts != [] {
      var init := acts[..|acts| - 1];
      DefaultKeptIff(w, init);
      RunSane(w, init);
      if AlwaysMarked(w, init) {
        StepMarkIff(After(w, init), acts[|acts| - 1]);
      }
    }
  }

  // ---------------------------------------------------------------- the recorded default

  /** The group a step would record as the default. */
  function Records(w: World, a: Act): Option<GroupId> {
    match a
    case SaveSettings(r) => if r in w.pending && w.pending[r].Listed? then w.pending[r].next.defaultGroup else None
    case SaveDefault(r) => if r in w.pending && w.pending[r].Marking? then Some(w.pending[r].id) else None
    case _ => None
  }

  /** The recorded default is deleted, or a write records a group that is gone by now. */
  ghost predicate Unrecords(w: World, a: Act) {
    || (a.Other? && Can(w, a) && DropsRecorded(w.st, a.op))
    || (Records(w, a).Some? && Records(w, a).value !in w.st.groups)
  }

  ghost predicate AlwaysRecorded(w: World, acts: seq<Act>)
    decreases |acts|
  {
    RecordedExists(After(w, acts).st) && (acts == [] || AlwaysRecorded(w, acts[..|acts| - 1]))
  }

  ghost predicate NeverUnrecords(w: World, acts: seq<Act>)
    decreases |acts|
  {
    acts == [] || (NeverUnrecords(w, acts[..|acts| - 1]) && !Unrecords(After(w, acts[..|acts| - 1]), acts[|acts| - 1]))
  }

  lemma StepRecordedIff(w: World, a: Act)
    requires RecordedExists(w.st)
    ensures RecordedExists(Next(w, a).st) <==> !Unrecords(w, a)
  {
  }

  /** Over every interleaving: the recorded default exists at every moment if and only if no deletion
      of it is accepted and no write records a group deleted since its request looked it up. */
  lemma {:induction false} RecordedKeptIff(w: World, acts: seq<Act>)
    requires RecordedExists(w.st)
    ensures AlwaysRecorded(w, acts) <==> NeverUnrecords(w, acts)
    decreases |acts|
  {
    if acts != [] {
      var init := acts[..|acts| - 1];
      RecordedKeptIff(w, init);
      if AlwaysRecorded(w, init) {
        StepRecordedIff(After(w, init), acts[|acts| - 1]);
      }
    }
  }

  /** The default that a request is going to record, once it has been looked up or copied. */
  function Holds(p: Pending): Option<GroupId> {
    match p
    case Patched(next, wanted) => if wanted.None? then next.defaultGroup else None
    case Valid(next) => next.defaultGroup
    case Listed(next, _) => next.defaultGroup
    case Marking(id, _) => Some(id)
    case _ => None
  }

  /** A group is named as the default by the settings or by a request on its way. */
  ghost predicate Named(w: World, id: GroupId) {
    w.st.settings.defaultGroup == Some(id) || exists r :: r in w.pending && Holds(w.pending[r]) == Some(id)
  }

  ghost predicate NamedExist(w: World) {
    && RecordedExists(w.st)
    && forall r | r in w.pending :: HeldExists(w, w.pending[r])
  }

  predicate HeldExists(w: World, p: Pending) {
    && (Holds(p).Some? ==> Holds(p).value in w.st.groups)
    && (p.Patched? && p.wanted.Some? ==> p.next.defaultGroup == p.wanted)
  }

  ghost predicate DropsNamed(w: World, a: Act) {
    a.Other? && a.op.DeleteGroup? && Accepts(w.st, a.op) && Named(w, a.op.id)
  }

  lemma StepNamedIff(w: World, a: Act)
    requires NamedExist(w)
    ensures NamedExist(Next(w, a)) <==> !DropsNamed(w, a)
  {
    var w' := Next(w, a);
    if DropsNamed(w, a) {
      if w.st.settings.defaultGroup != Some(a.op.id) {
        var r :| r in w.pending && Holds(w.pending[r]) == Some(a.op.id);
        assert !HeldExists(w', w'.pending[r]);
      }
    } else {
      forall r | r in w'.pending ensures HeldExists(w', w'.pending[r]) {
        if r in w.pending { assert HeldExists(w, w.pending[r]); }
      }
    }
  }

  ghost predicate AlwaysNamedExist(w: World, acts: seq<Act>)
    decreases |acts|
  {
    NamedExist(After(w, acts)) && (acts == [] || AlwaysNamedExist(w, acts[..|acts| - 1]))
  }

  ghost predicate NeverDropsNamed(w: World, acts: seq<Act>)
    decreases |acts|
  {
    acts == [] || (NeverDropsNamed(w, acts[..|acts| - 1]) && !DropsNamed(After(w, acts[..|acts| - 1]), acts[|acts| - 1]))
  }

  /** What a caller who deletes can watch: the default in the settings and those on their way there
      exist at every moment if and only if no deletion of one of them is accepted. */
  lemma {:induction false} NamedKeptIff(w: World, acts: seq<Act>)
    requires NamedExist(w)
    ensures AlwaysNamedExist(w, acts) <==> NeverDropsNamed(w, acts)
    ensures NeverDropsNamed(w, acts) ==> AlwaysRecorded(w, acts)
    decreases |acts|
  {
    if acts != [] {
      var init := acts[..|acts| - 1];
      NamedKeptIff(w, init);
      if AlwaysNamedExist(w, init) {
        StepNamedIff(After(w, init), acts[|acts| - 1]);
      }
    }
  }

  // ---------------------------------------------------------------- runs that are safe, and one that is not

  /** The write finds exactly what its request had read. */
  ghost predicate Undisturbed(w: World, a: Act) {
    Can(w, a) ==>
      match a
      case SaveSettings(r) => w.st.groups == w.pending[r].seen
      case SaveDefault(r) => w.st.settings == w.pending[r].cfg
      case SaveGroup(r) => w.st.settings == w.pending[r].cfg
      case _ => true
  }

  ghost predicate AlwaysUndisturbed(w: World, acts: seq<Act>)
    decreases |acts|
  {
    acts == [] || (AlwaysUndisturbed(w, acts[..|acts| - 1]) && Undisturbed(After(w, acts[..|acts| - 1]), acts[|acts| - 1]))
  }

  /** If no write of one request falls between the read and the write of another, the ceiling holds. */
  lemma {:induction false} UndisturbedWithinCeiling(w: World, acts: seq<Act>)
    requires Sane(w) && Inv(w.st) && AlwaysUndisturbed(w, acts)
    ensures AlwaysInv(w, acts)
    decreases |acts|
  {
    if acts != [] {
      var init, a := acts[..|acts| - 1], acts[|acts| - 1];
      UndisturbedWithinCeiling(w, init);
      RunSane(w, init);
      var v := After(w, init);
      if Can(v, a) && (a.SaveSettings? || a.SaveGroup? || a.SaveDefault?) {
        assert Checked(v.pending[a.r]);
      }
      StepSane(v, a);
      StepFitsIff(v, a);
    }
  }

  const R1 := ReqId(1)
  const R2 := ReqId(2)
  const NEW_ID := GroupId(1)
  const ROOMY := Group("g", 0, 0, -1, -1, 8, false)
  const TIGHTER := SettingsPatch(None, None, None, None, Some(5), None)

  lemma EscapeFirstHalf()
    ensures After(Begin(State(DEFAULTS, map[], map[])), [BeginSettings(R1, TIGHTER), LookUpDefault(R1), ListGroups(R1)])
         == World(State(DEFAULTS, map[], map[]), map[R1 := Listed(DEFAULTS.(maxRules := 5), map[])])
  {
    AfterThree(Begin(State(DEFAULTS, map[], map[])), BeginSettings(R1, TIGHTER), LookUpDefault(R1), ListGroups(R1));
  }

  lemma EscapeSecondHalf(w: World, u: UserId)
    requires w == World(State(DEFAULTS, map[], map[]), map[R1 := Listed(DEFAULTS.(maxRules := 5), map[])])
    ensures var end := Next(Next(Next(Next(w, BeginCreate(R2, NEW_ID, ROOMY)), SaveGroup(R2)), Other(Assign(u, Some(NEW_ID)))),
                            SaveSettings(R1)).st;
            end == State(DEFAULTS.(maxRules := 5), map[NEW_ID := ROOMY], map[u := Some(NEW_ID)])
  {
    var w1 := Next(w, BeginCreate(R2, NEW_ID, ROOMY));
    assert w1.pending[R2] == Ready(NEW_ID, ROOMY, DEFAULTS) && w1.pending[R1] == w.pending[R1];
    var w2 := Next(w1, SaveGroup(R2));
    assert w2.st == State(DEFAULTS, map[NEW_ID := ROOMY], map[]) && R1 in w2.pending && w2.pending[R1] == w.pending[R1];
    var w3 := Next(w2, Other(Assign(u, Some(NEW_ID))));
    assert w3.st.members == map[u := Some(NEW_ID)];
  }

  /** Without that: from fresh settings, a settings edit lists the groups, a group is created and
      assigned meanwhile, and the edit's write leaves that user above the new ceiling. */
  lemma InterleavedEditsEscape(u: UserId)
    ensures var acts := [BeginSettings(R1, TIGHTER), LookUpDefault(R1), ListGroups(R1), BeginCreate(R2, NEW_ID, ROOMY),
                         SaveGroup(R2), Other(Assign(u, Some(NEW_ID))), SaveSettings(R1)];
            var start := State(DEFAULTS, map[], map[]);
            var end := After(Begin(start), acts).st;
            Inv(start) && !Inv(end) && !UnderCeiling(QuotaOf(end, u).rules, end.settings.maxRules)
  {
    var a1, a2, a3, a4, a5, a6, a7 := BeginSettings(R1, TIGHTER), LookUpDefault(R1), ListGroups(R1),
        BeginCreate(R2, NEW_ID, ROOMY), SaveGroup(R2), Other(Assign(u, Some(NEW_ID))), SaveSettings(R1);
    var w0 := Begin(State(DEFAULTS, map[], map[]));
    EscapeFirstHalf();
    EscapeSecondHalf(After(w0, [a1, a2, a3]), u);
    AfterAlso(w0, [a1, a2, a3], a4);
    AfterAlso(w0, [a1, a2, a3, a4], a5);
    AfterAlso(w0, [a1, a2, a3, a4, a5], a6);
    AfterAlso(w0, [a1, a2, a3, a4, a5, a6], a7);
    assert [a1, a2, a3] + [a4] == [a1, a2, a3, a4] && [a1, a2, a3, a4] + [a5] == [a1, a2, a3, a4, a5];
    assert [a1, a2, a3, a4, a5] + [a6] == [a1, a2, a3, a4, a5, a6];
    assert [a1, a2, a3, a4, a5, a6] + [a7] == [a1, a2, a3, a4, a5, a6, a7];
    var end := After(w0, [a1, a2, a3, a4, a5, a6, a7]).st;
    assert NEW_ID in end.groups && !Fits(end.groups[NEW_ID], end.settings);
  }
}
