/** Quotas: a group's own values, the global ceiling, and what a user ends up with
    (internal/models/settings.go:275-342, internal/models/group.go:77-106,
    internal/models/user.go:226-237). */
module Quotas {
  import opened Prelude

  datatype GroupId = GroupId(n: nat)

  datatype Group = Group(name: string, start: int, end: int, maxCodes: int, maxTunnels: int, maxRules: int, isDefault: bool)
  datatype Settings = Settings(start: int, end: int, maxCodes: int, maxTunnels: int, maxRules: int, defaultGroup: Option<GroupId>)

  const DEFAULTS := Settings(20000, 29999, 3, 3, 10, None)

  datatype Source = FromGroup | FromGlobal | Unlimited | FromAdmin
  datatype Limit = Limit(max: int, source: Source)
  datatype Quota = Quota(start: int, end: int, portSource: Source, codes: Limit, tunnels: Limit, rules: Limit)

  // ---------------------------------------------------------------- validation

  /** `ValidatePortRange`: unset, follow-global, or a proper range. */
  predicate RangeOk(start: int, end: int) {
    (start == 0 && end == 0) || (start == -1 && end == -1) || 1 <= start <= end <= 65535
  }

  predicate IsRange(start: int, end: int) { start > 0 && end > 0 }

  predicate LimitOk(group: int, glob: int) {
    group >= -1 && (group > 0 && glob > 0 ==> group <= glob)
  }

  /** `ValidateGroupAgainstSettings` succeeds. */
  predicate Fits(g: Group, s: Settings) {
    && RangeOk(g.start, g.end)
    && (IsRange(g.start, g.end) && IsRange(s.start, s.end) ==> s.start <= g.start && g.end <= s.end)
    && LimitOk(g.maxCodes, s.maxCodes) && LimitOk(g.maxTunnels, s.maxTunnels) && LimitOk(g.maxRules, s.maxRules)
  }

  /** The part of `ValidateSettings` that concerns quotas. */
  predicate SettingsOk(s: Settings) {
    RangeOk(s.start, s.end) && s.maxCodes >= 0 && s.maxTunnels >= 0 && s.maxRules >= 0
  }

  // ---------------------------------------------------------------- resolution

  predicate Locked(g: Group) { g.start == -1 || g.end == -1 || g.maxRules == 0 }

  function Pick(group: int, glob: int): Limit {
    if group >= 0 then Limit(group, FromGroup) else if glob > 0 then Limit(glob, FromGlobal) else Limit(0, Unlimited)
  }

  function PortsOf(g: Option<Group>, s: Settings): (int, int, Source) {
    var q := if g.None? then (s.start, s.end, FromGlobal)
             else if IsRange(g.value.start, g.value.end) then (g.value.start, g.value.end, FromGroup)
             else if Locked(g.value) then (0, 0, FromGroup)
             else (s.start, s.end, FromGlobal);
    if q.0 <= 0 || q.1 <= 0 then (q.0, q.1, if g.Some? && Locked(g.value) then FromGroup else Unlimited) else q
  }

  /** `ResolveQuota`. */
  function Resolve(g: Option<Group>, s: Settings): Quota {
    var p := PortsOf(g, s);
    Quota(p.0, p.1, p.2,
          Pick(if g.Some? then g.value.maxCodes else -1, s.maxCodes),
          Pick(if g.Some? then g.value.maxTunnels else -1, s.maxTunnels),
          Pick(if g.Some? then g.value.maxRules else -1, s.maxRules))
  }

  const ADMIN := Quota(0, 0, FromAdmin, Limit(0, FromAdmin), Limit(0, FromAdmin), Limit(0, FromAdmin))

  predicate PortAllowed(q: Quota, port: int) {
    q.portSource == FromAdmin || (q.start > 0 && q.end > 0 && q.start <= port <= q.end)
  }

  /** A limit that is in force and no larger than the ceiling, when there is one. */
  predicate UnderCeiling(l: Limit, glob: int) {
    glob > 0 ==> l.source != Unlimited && 0 <= l.max <= glob
  }

  /** A group that passed validation can neither open a port outside the global range nor lift any
      limit above the global one; and without any range there is no port at all. */
  lemma FittingGroupIsBounded(g: Option<Group>, s: Settings, port: int)
    requires g.Some? ==> Fits(g.value, s)
    ensures var q := Resolve(g, s);
            && (IsRange(s.start, s.end) && PortAllowed(q, port) ==> s.start <= port <= s.end)
            && (!IsRange(s.start, s.end) && (g.None? || !IsRange(g.value.start, g.value.end)) ==> !PortAllowed(q, port))
            && UnderCeiling(q.codes, s.maxCodes) && UnderCeiling(q.tunnels, s.maxTunnels) && UnderCeiling(q.rules, s.maxRules)
  {
  }

  /** The validation is not only enough but needed: a group whose ranges and limits are well formed
      but that fails it would let some user past the ceiling. */
  lemma UnfitGroupEscapes(g: Group, s: Settings)
    requires SettingsOk(s) && RangeOk(g.start, g.end) && g.maxCodes >= -1 && g.maxTunnels >= -1 && g.maxRules >= -1
    requires !Fits(g, s)
    ensures var q := Resolve(Some(g), s);
            || (exists port {:trigger PortAllowed(q, port)} :: PortAllowed(q, port) && !(s.start <= port <= s.end))
            || !UnderCeiling(q.codes, s.maxCodes) || !UnderCeiling(q.tunnels, s.maxTunnels) || !UnderCeiling(q.rules, s.maxRules)
  {
    var q := Resolve(Some(g), s);
    if IsRange(g.start, g.end) && IsRange(s.start, s.end) {
      if g.start < s.start { assert PortAllowed(q, g.start); }
      if g.end > s.end { assert PortAllowed(q, g.end); }
    }
  }

  // ---------------------------------------------------------------- what a quota grants

  /** May one more be had with `used` already there?  (internal/users/accesscode.go:95-100, 290-298,
      internal/web/rule_guard.go:217-232) */
  predicate Grants(l: Limit, used: nat) {
    if l.source == Unlimited || l.source == FromAdmin then true
    else if l.max == 0 then false
    else l.max > 0 ==> used < l.max
  }

  /** What a quota means for its user: a group's own range and limits where it has them, 0 being a ban; no
      port at all for a locked group without a range; and the global values, where 0 is no limit, for the
      rest. */
  lemma QuotaMeans(g: Option<Group>, s: Settings, port: int, used: nat)
    ensures var q := Resolve(g, s);
            && (PortAllowed(q, port) <==>
                  if g.Some? && g.value.start > 0 && g.value.end > 0 then g.value.start <= port <= g.value.end
                  else if g.Some? && (g.value.start == -1 || g.value.end == -1 || g.value.maxRules == 0) then false
                  else s.start > 0 && s.end > 0 && s.start <= port <= s.end)
            && (Grants(q.codes, used) <==> if g.Some? && g.value.maxCodes >= 0 then used < g.value.maxCodes
                                           else s.maxCodes <= 0 || used < s.maxCodes)
            && (Grants(q.tunnels, used) <==> if g.Some? && g.value.maxTunnels >= 0 then used < g.value.maxTunnels
                                             else s.maxTunnels <= 0 || used < s.maxTunnels)
            && (Grants(q.rules, used) <==> if g.Some? && g.value.maxRules >= 0 then used < g.value.maxRules
                                           else s.maxRules <= 0 || used < s.maxRules)
  {
  }

  /** Administrators are not held by any of it. */
  lemma AdminMeans(port: int, used: nat)
    ensures PortAllowed(ADMIN, port) && Grants(ADMIN.codes, used) && Grants(ADMIN.tunnels, used) && Grants(ADMIN.rules, used)
  {
  }

  /** Ports that valid settings and a group that passed validation open are real ports, and no limit is
      below the mark for "not set". */
  lemma ValidPortsOnly(g: Option<Group>, s: Settings, port: int)
    requires SettingsOk(s) && (g.Some? ==> Fits(g.value, s)) && PortAllowed(Resolve(g, s), port)
    ensures 1 <= port <= 65535 && (g.Some? ==> g.value.maxCodes >= -1 && g.value.maxTunnels >= -1 && g.value.maxRules >= -1)
  {
  }
}
