/** The access-code bucket (internal/storage/accesscode.go).  Every operation is one write
    transaction; here it is a function or a relation on the bucket's contents, and `CodeStore`
    is the object that performs it. */
module AccessCodes {
  import opened Prelude
  import opened Ipv4

  /** The stored tunnel-address text: empty, not an IPv4 address, or an address. */
  datatype TunField = Blank | Unreadable | At(ip: TunIP)
  datatype Code = Code(user: UserId, tun: TunField, secret: string, disabled: bool, fp: string, boundAt: int, seenAt: int)
  type Codes = map<CodeId, Code>

  /** The empty identifier strings. */
  const NO_CODE := CodeId(0)
  const NO_USER := UserId(0)

  function Owned(s: Codes, u: UserId): set<CodeId> {
    set c | c in s && s[c].user == u
  }

  function Used(s: Codes): set<TunIP> {
    set c | c in s && s[c].tun.At? :: s[c].tun.ip
  }

  // ---------------------------------------------------------------- create and delete

  datatype Outcome = Ok | MissingId | OverQuota | BadPool | PoolFull

  datatype Request = Request(id: CodeId, code: Code, pool: Prefix, gateway: Option<TunIP>, maxCodes: int)

  /** No free address below `ip`, and `ip` free. */
  ghost predicate LeastFree(s: Codes, r: Request, ip: TunIP) {
    && ValidPrefix(r.pool) && Free(r.pool, r.gateway, Used(s), ip)
    && forall b: TunIP | b.v < ip.v :: !Free(r.pool, r.gateway, Used(s), b)
  }

  /** `CreateAccessCode`: quota check, address allocation and write in one transaction. */
  ghost predicate Create(s: Codes, r: Request, s': Codes, res: Outcome) {
    match res
    case MissingId => s' == s && (r.id == NO_CODE || r.code.user == NO_USER)
    case OverQuota => s' == s && Named(r) && OverLimit(s, r)
    case BadPool => s' == s && Named(r) && !OverLimit(s, r) && r.code.tun.Blank? && !ValidPrefix(r.pool)
    case PoolFull =>
      && s' == s && Named(r) && !OverLimit(s, r) && r.code.tun.Blank? && ValidPrefix(r.pool)
      && forall b: TunIP :: !Free(r.pool, r.gateway, Used(s), b)
    case Ok =>
      && Named(r) && !OverLimit(s, r) && r.id in s'
      && s' == s[r.id := r.code.(tun := s'[r.id].tun)]
      && if r.code.tun.Blank? then s'[r.id].tun.At? && LeastFree(s, r, s'[r.id].tun.ip) else s'[r.id].tun == r.code.tun
  }

  predicate Named(r: Request) {
    r.id != NO_CODE && r.code.user != NO_USER
  }

  predicate OverLimit(s: Codes, r: Request) {
    r.maxCodes > 0 && |Owned(s, r.code.user)| >= r.maxCodes
  }

  function Delete(s: Codes, id: CodeId): Codes { s - {id} }

  /** `SaveAccessCode`: overwrite an existing record. */
  function Save(s: Codes, id: CodeId, c: Code): Codes {
    if id in s then s[id := c] else s
  }

  // ---------------------------------------------------------------- device binding

  datatype Bound = Fresh | Same | NotFound | Mismatch

  function BindVerdict(s: Codes, id: CodeId, fp: string): Bound {
    if id !in s then NotFound
    else if s[id].fp == "" then Fresh
    else if s[id].fp == fp then Same
    else Mismatch
  }

  function Bind(s: Codes, id: CodeId, fp: string, at: int): Codes {
    match BindVerdict(s, id, fp)
    case Fresh => s[id := s[id].(fp := fp, boundAt := at, seenAt := at)]
    case Same => s[id := s[id].(seenAt := at)]
    case _ => s
  }

  function Unbind(s: Codes, id: CodeId): Codes {
    if id in s then s[id := s[id].(fp := "", boundAt := 0)] else s
  }

  /** Compare-and-set from one fingerprint to another. */
  function Migrate(s: Codes, id: CodeId, from: string, to: string, at: int): Codes {
    if id in s && s[id].fp == from then s[id := s[id].(fp := to, seenAt := at)] else s
  }

  // ---------------------------------------------------------------- runs of administration

  datatype Op =
    | OCreate(r: Request)
    | ODelete(id: CodeId)
    | ODeleteUser(user: UserId)
    | OSave(id: CodeId, c: Code)
    | OBind(id: CodeId, fp: string, at: int)
    | OUnbind(id: CodeId)
    | OMigrate(id: CodeId, from: string, to: string, at: int)

  ghost predicate Step(s: Codes, op: Op, s': Codes) {
    match op
    case OCreate(r) => exists res :: Create(s, r, s', res)
    case ODelete(id) => s' == Delete(s, id)
    case ODeleteUser(u) => s' == s - Owned(s, u)
    // the callers rename, disable or re-key the record they read: owner and address stay
    case OSave(id, c) => s' == Save(s, id, c) && (id in s ==> c.user == s[id].user && c.tun == s[id].tun)
    case OBind(id, fp, at) => s' == Bind(s, id, fp, at)
    case OUnbind(id) => s' == Unbind(s, id)
    case OMigrate(id, from, to, at) => s' == Migrate(s, id, from, to, at)
  }

  ghost predicate Distinct(s: Codes) {
    forall c, d | c in s && d in s && s[c].tun.At? && s[c].tun == s[d].tun :: c == d
  }

  /** A successful create whose caller chose an address that another code already has. */
  ghost predicate Clash(s: Codes, op: Op, s': Codes) {
    && op.OCreate? && op.r.code.tun.At? && Create(s, op.r, s', Ok)
    && exists d :: d in s && d != op.r.id && s[d].tun == op.r.code.tun
  }

  lemma UsedHas(s: Codes, d: CodeId)
    requires d in s && s[d].tun.At?
    ensures s[d].tun.ip in Used(s)
  {
  }

  /** The transaction keeps addresses distinct except when handed an address already in use:
      exactly then it breaks them, because a caller's own address is never checked. */
  lemma CreateDistinctIff(s: Codes, r: Request, s': Codes)
    requires Distinct(s) && Create(s, r, s', Ok)
    ensures Distinct(s') <==> !Clash(s, OCreate(r), s')
  {
    var t := s'[r.id].tun;
    if Clash(s, OCreate(r), s') {
      var d :| d in s && d != r.id && s[d].tun == r.code.tun;
      assert s'[d].tun == s'[r.id].tun;
    } else {
      forall d | d in s && d != r.id && t.At? && s[d].tun == t
        ensures false
      {
        UsedHas(s, d);
      }
      assert forall d | d in s' && d != r.id :: s'[d] == s[d];
    }
  }

  /** What every step leaves alone: owner and address of every code that stays. */
  lemma StepKeepsTuns(s: Codes, op: Op, s': Codes)
    requires Step(s, op, s') && !op.OCreate?
    ensures forall c | c in s' :: c in s && s'[c].user == s[c].user && s'[c].tun == s[c].tun
  {
  }

  lemma StepDistinctIff(s: Codes, op: Op, s': Codes)
    requires Distinct(s) && Step(s, op, s')
    ensures Distinct(s') <==> !Clash(s, op, s')
  {
    if op.OCreate? {
      var res :| Create(s, op.r, s', res);
      if Create(s, op.r, s', Ok) {
        CreateDistinctIff(s, op.r, s');
      }
    } else {
      StepKeepsTuns(s, op, s');
    }
  }

  /** A run: the bucket after every operation, from any contents with distinct addresses. */
  ghost predicate Run(ss: seq<Codes>, ops: seq<Op>) {
    && |ss| == |ops| + 1 && Distinct(ss[0])
    && forall i | 0 <= i < |ops| :: Step(ss[i], ops[i], ss[i + 1])
  }

  lemma RunPrefix(ss: seq<Codes>, ops: seq<Op>)
    requires Run(ss, ops) && ops != []
    ensures Run(ss[..|ss| - 1], ops[..|ops| - 1])
  {
    var tt, qq := ss[..|ss| - 1], ops[..|ops| - 1];
    forall i | 0 <= i < |qq| ensures Step(tt[i], qq[i], tt[i + 1]) {
      assert Step(ss[i], ops[i], ss[i + 1]);
    }
  }

  /** Over every run of creates, deletes, saves and bindings, all tunnel addresses stay distinct
      if and only if no create was handed an address in use. */
  lemma {:induction false} DistinctIffNoClash(ss: seq<Codes>, ops: seq<Op>)
    requires Run(ss, ops)
    ensures (forall i | 0 <= i < |ss| :: Distinct(ss[i]))
       <==> (forall i | 0 <= i < |ops| :: !Clash(ss[i], ops[i], ss[i + 1]))
    decreases |ops|
  {
    if ops != [] {
      var n := |ops| - 1;
      RunPrefix(ss, ops);
      var tt, qq := ss[..n + 1], ops[..n];
      DistinctIffNoClash(tt, qq);
      assert Step(ss[n], ops[n], ss[n + 1]);
      assert tt[n] == ss[n];
      if forall i | 0 <= i < |ss| :: Distinct(ss[i]) {
        assert forall i | 0 <= i < |tt| :: Distinct(tt[i]) by {
          assert forall i | 0 <= i < |tt| :: tt[i] == ss[i];
        }
        forall i | 0 <= i < |ops| ensures !Clash(ss[i], ops[i], ss[i + 1]) {
          if i < n { assert !Clash(tt[i], qq[i], tt[i + 1]); } else { StepDistinctIff(ss[n], ops[n], ss[n + 1]); }
        }
      }
      if forall i | 0 <= i < |ops| :: !Clash(ss[i], ops[i], ss[i + 1]) {
        forall i | 0 <= i < |qq| ensures !Clash(tt[i], qq[i], tt[i + 1]) {
          assert !Clash(ss[i], ops[i], ss[i + 1]);
        }
        forall i | 0 <= i < |ss| ensures Distinct(ss[i]) {
          if i <= n { assert Distinct(tt[i]); } else { assert Distinct(tt[n]); StepDistinctIff(ss[n], ops[n], ss[n + 1]); }
        }
      }
    }
  }

  /** The panel's creates leave the address to the allocator, so its runs keep addresses distinct. */
  lemma AllocatedRunsDistinct(ss: seq<Codes>, ops: seq<Op>, i: nat)
    requires Run(ss, ops) && i <= |ops|
    requires forall k | 0 <= k < |ops| && ops[k].OCreate? :: ops[k].r.code.tun.Blank?
    ensures Distinct(ss[i])
  {
    DistinctIffNoClash(ss, ops);
    assert forall k | 0 <= k < |ops| :: !Clash(ss[k], ops[k], ss[k + 1]);
  }

  /** Every create for user `u` carried a limit between 1 and `m`. */
  ghost predicate LimitedTo(ops: seq<Op>, u: UserId, m: int) {
    forall i | 0 <= i < |ops| && ops[i].OCreate? && ops[i].r.code.user == u :: 0 < ops[i].r.maxCodes <= m
  }

  lemma StepQuota(s: Codes, op: Op, s': Codes, u: UserId, m: int)
    requires Step(s, op, s') && |Owned(s, u)| <= m
    requires op.OCreate? && op.r.code.user == u ==> 0 < op.r.maxCodes <= m
    ensures |Owned(s', u)| <= m
  {
    if op.OCreate? {
      var res :| Create(s, op.r, s', res);
      if op.r.code.user == u {
        SubsetSize(Owned(s', u), Owned(s, u) + {op.r.id});
      } else {
        SubsetSize(Owned(s', u), Owned(s, u));
      }
    } else {
      StepKeepsTuns(s, op, s');
      SubsetSize(Owned(s', u), Owned(s, u));
    }
  }

  /** Quotas hold over every run. */
  lemma {:induction false} QuotaOverRuns(ss: seq<Codes>, ops: seq<Op>, u: UserId, m: nat)
    requires Run(ss, ops) && LimitedTo(ops, u, m) && |Owned(ss[0], u)| <= m
    ensures |Owned(ss[|ops|], u)| <= m
    decreases |ops|
  {
    if ops != [] {
      var n := |ops| - 1;
      RunPrefix(ss, ops);
      QuotaOverRuns(ss[..n + 1], ops[..n], u, m);
      assert Step(ss[n], ops[n], ss[n + 1]);
      StepQuota(ss[n], ops[n], ss[n + 1], u, m);
    }
  }

  // ---------------------------------------------------------------- the bucket object

  lemma ScanStep(s: Codes, todo: set<CodeId>, c: CodeId, u: UserId)
    requires todo <= s.Keys && c in todo
    ensures Used(s - (todo - {c})) == Used(s - todo) + (if s[c].tun.At? then {s[c].tun.ip} else {})
    ensures |Owned(s - (todo - {c}), u)| == |Owned(s - todo, u)| + (if s[c].user == u then 1 else 0)
  {
    var before, after := s - todo, s - (todo - {c});
    assert after == before[c := s[c]];
    AddUsed(before, c, s[c]);
    AddOwned(before, c, s[c], u);
  }

  lemma AddUsed(s: Codes, c: CodeId, x: Code)
    requires c !in s
    ensures Used(s[c := x]) == Used(s) + (if x.tun.At? then {x.tun.ip} else {})
  {
    var t := s[c := x];
    forall ip | ip in Used(s) ensures ip in Used(t) {
      var d :| d in s && s[d].tun.At? && s[d].tun.ip == ip;
      UsedHas(t, d);
    }
    if x.tun.At? { UsedHas(t, c); }
  }

  lemma AddOwned(s: Codes, c: CodeId, x: Code, u: UserId)
    requires c !in s
    ensures |Owned(s[c := x], u)| == |Owned(s, u)| + (if x.user == u then 1 else 0)
  {
    if x.user == u {
      assert Owned(s[c := x], u) == Owned(s, u) + {c};
    } else {
      assert Owned(s[c := x], u) == Owned(s, u);
    }
  }

  class CodeStore {
    var codes: Codes

    constructor ()
      ensures codes == map[]
    {
      codes := map[];
    }

    /** The scan inside the create transaction. */
    method Scan(u: UserId) returns (used: set<TunIP>, owned: nat)
      ensures used == Used(codes) && owned == |Owned(codes, u)|
    {
      used, owned := {}, 0;
      var todo := codes.Keys;
      while todo != {}
        invariant todo <= codes.Keys
        invariant used == Used(codes - todo) && owned == |Owned(codes - todo, u)|
        decreases todo
      {
        var c :| c in todo;
        ScanStep(codes, todo, c, u);
        if codes[c].tun.At? {
          used := used + {codes[c].tun.ip};
        }
        if codes[c].user == u {
          owned := owned + 1;
        }
        todo := todo - {c};
      }
      assert codes - {} == codes;
    }

    method CreateAccessCode(r: Request) returns (res: Outcome)
      modifies this
      ensures Create(old(codes), r, codes, res)
      // an address not given is the first between network and broadcast that is neither the gateway's nor
      // another code's
      ensures res.Ok? && r.code.tun.Blank? ==>
                && r.id in codes && codes[r.id].tun.At? && ValidPrefix(r.pool)
                && var ip := codes[r.id].tun.ip;
                   && Network(r.pool) < ip.v < Broadcast(r.pool) && r.gateway != Some(ip)
                   && (forall d | d in old(codes) :: old(codes)[d].tun != At(ip))
                   && forall a | Network(r.pool) < a < ip.v ::
                        r.gateway == Some(TunIP(a)) || exists d :: d in old(codes) && old(codes)[d].tun == At(TunIP(a))
    {
      if r.id == NO_CODE || r.code.user == NO_USER {
        return MissingId;
      }
      var used, owned := Scan(r.code.user);
      if r.maxCodes > 0 && owned >= r.maxCodes {
        return OverQuota;
      }
      var c := r.code;
      if c.tun.Blank? {
        var taken := if r.gateway.Some? then used + {r.gateway.value} else used;
        var a := AllocTunIP(r.pool, r.gateway, taken);
        assert ValidPrefix(r.pool) ==>
          forall b: TunIP :: Free(r.pool, r.gateway, taken, b) == Free(r.pool, r.gateway, Used(codes), b);
        match a {
          case BadPool => return Outcome.BadPool;
          case PoolFull => return Outcome.PoolFull;
          case Got(ip) => c := c.(tun := At(ip));
        }
      }
      codes := codes[r.id := c];
      return Ok;
    }

    method DeleteAccessCode(id: CodeId) returns (found: bool)
      modifies this
      ensures found == (id in old(codes)) && codes == Delete(old(codes), id)
      ensures codes == old(codes) - {id}
    {
      found := id in codes;
      if found {
        codes := codes - {id};
      }
    }

    method DeleteAccessCodesByUser(u: UserId) returns (n: nat)
      modifies this
      ensures codes == old(codes) - Owned(old(codes), u) && n == |Owned(old(codes), u)|
      ensures forall c :: c in codes <==> c in old(codes) && old(codes)[c].user != u
    {
      n := 0;
      var keys := set c | c in codes && codes[c].user == u;
      ghost var all := keys;
      while keys != {}
        invariant keys <= all && codes == old(codes) - (all - keys) && n == |all| - |keys|
        decreases keys
      {
        var c :| c in keys;
        codes := codes - {c};
        assert all - (keys - {c}) == (all - keys) + {c};
        keys := keys - {c};
        n := n + 1;
      }
      assert all - {} == all;
    }

    method SaveAccessCode(id: CodeId, c: Code) returns (found: bool)
      modifies this
      ensures found == (id in old(codes)) && codes == Save(old(codes), id, c)
      ensures codes == if found then old(codes)[id := c] else old(codes)
    {
      found := id in codes;
      if found {
        codes := codes[id := c];
      }
    }

    method BindAccessCodeDevice(id: CodeId, fp: string, at: int) returns (res: Bound)
      modifies this
      ensures res == BindVerdict(old(codes), id, fp) && codes == Bind(old(codes), id, fp, at)
      ensures res.NotFound? <==> id !in old(codes)
      ensures res.Mismatch? <==> id in old(codes) && old(codes)[id].fp != "" && old(codes)[id].fp != fp
      ensures if res.NotFound? || res.Mismatch? then codes == old(codes)
              else
                && id in codes && codes[id].fp == fp && codes[id].seenAt == at
                && codes[id].boundAt == (if old(codes)[id].fp == "" then at else old(codes)[id].boundAt)
                && codes == old(codes)[id := old(codes)[id].(fp := fp, boundAt := codes[id].boundAt, seenAt := at)]
    {
      if id !in codes {
        return NotFound;
      }
      var r := codes[id];
      if r.fp != "" {
        if r.fp != fp {
          return Mismatch;
        }
        res := Same;
      } else {
        r := r.(fp := fp, boundAt := at);
        res := Fresh;
      }
      r := r.(seenAt := at);
      codes := codes[id := r];
    }

    method UnbindAccessCodeDevice(id: CodeId) returns (found: bool)
      modifies this
      ensures found == (id in old(codes)) && codes == Unbind(old(codes), id)
      ensures codes == if found then old(codes)[id := old(codes)[id].(fp := "", boundAt := 0)] else old(codes)
    {
      found := id in codes;
      if found {
        codes := codes[id := codes[id].(fp := "", boundAt := 0)];
      }
    }

    method MigrateAccessCodeDevice(id: CodeId, from: string, to: string, at: int) returns (found: bool, migrated: bool)
      modifies this
      ensures found == (id in old(codes))
      ensures migrated == (id in old(codes) && old(codes)[id].fp == from)
      ensures codes == Migrate(old(codes), id, from, to, at)
      ensures codes == if migrated then old(codes)[id := old(codes)[id].(fp := to, seenAt := at)] else old(codes)
    {
      found, migrated := id in codes, false;
      if found && codes[id].fp == from {
        codes := codes[id := codes[id].(fp := to, seenAt := at)];
        migrated := true;
      }
    }
  }
}
