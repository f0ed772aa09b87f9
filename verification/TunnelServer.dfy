/** Runs of the tunnel server: one handshake worker (internal/tunnelapp/tunnelapp.go:781-919) going
    through its steps while administration, eviction and idle reaping happen in between. */
module TunnelSpec {
  import opened Prelude
  import opened Ipv4
  import opened PeerIndex
  import opened Isolation
  import A = AccessCodes

  /** An authenticated hello.  `fp2` is empty when the client sent no second fingerprint or one
      equal to the first. */
  datatype Hello = Hello(code: CodeId, fp: string, fp2: string, from: AddrPort)

  predicate WellFormed(h: Hello) { h.fp != "" && h.fp2 != h.fp }

  /** The credentials read at the start of a handshake; `max` is negative for no limit. */
  datatype Ident = Ident(user: UserId, tunIP: TunIP, fp: string, max: int)

  datatype Worker =
    | Idle
    | Known(h: Hello, id: Ident)
    | Bound(h: Hello, id: Ident)
    | Counting(h: Hello, id: Ident)
    | Admitted(h: Hello, id: Ident)

  /** A panel edit between its two transactions holds the whole record it read
      (internal/users/accesscode.go:116-133, 163-176). */
  datatype EditId = EditId(n: nat)
  datatype Edit = Edit(code: CodeId, c: A.Code)

  /** `issued` is history: the owner and address every code identifier was created with. */
  datatype Issue = Issue(user: UserId, tun: A.TunField)
  datatype State = State(codes: A.Codes, ix: Index, worker: Worker, edits: map<EditId, Edit>, issued: map<CodeId, Issue>)

  /** A server just started over any bucket with distinct addresses. */
  ghost predicate JustStarted(s: State) {
    && A.Distinct(s.codes) && s.ix == Empty && s.worker.Idle? && s.edits == map[]
    && s.issued == map c | c in s.codes :: Issue(s.codes[c].user, s.codes[c].tun)
  }

  datatype Act =
    | Lookup(h: Hello, userDisabled: bool, max: int)
    | BindDevice(at: int)
    | CheckOnline
    | CheckCount
    | Install(id: PeerId, mtu: int)
    | GiveUp
    | EvictCode(c: CodeId)
    | ReapCodes(dead: seq<CodeId>)
    | PanelRead(e: EditId, c: CodeId)
    | PanelSave(e: EditId, disabled: Option<bool>, secret: Option<string>)
    | Admin(op: A.Op)

  // ---------------------------------------------------------------- the handshake's decisions

  /** The address checks made on the credentials before anything is written. */
  predicate Acceptable(net: Net, c: A.Code, userDisabled: bool) {
    !c.disabled && !userDisabled && c.tun.At? && GoodAddress(net, c.tun.ip)
  }

  /** What the device rules do to the stored fingerprint. */
  datatype DeviceRule = Keep | Upgrade | Register(fp: string)

  function Rule(h: Hello, stored: string): DeviceRule {
    if stored == h.fp && h.fp2 != "" then Upgrade
    else if stored != h.fp && (h.fp2 == "" || stored != h.fp2) then Register(if h.fp2 != "" then h.fp2 else h.fp)
    else Keep
  }

  predicate Rejected(codes: A.Codes, h: Hello, stored: string) {
    Rule(h, stored).Register? && (A.BindVerdict(codes, h.code, Rule(h, stored).fp).NotFound?
                                  || A.BindVerdict(codes, h.code, Rule(h, stored).fp).Mismatch?)
  }

  function AfterRule(codes: A.Codes, h: Hello, stored: string, at: int): A.Codes {
    match Rule(h, stored)
    case Keep => codes
    case Upgrade => A.Migrate(codes, h.code, h.fp, h.fp2, at)
    case Register(fp) => A.Bind(codes, h.code, fp, at)
  }

  function PeerOf(h: Hello, id: Ident, pid: PeerId, mtu: int): Peer {
    Peer(pid, h.code, id.user, id.tunIP, h.from, mtu)
  }

  // ---------------------------------------------------------------- steps

  predicate Enabled(s: State, a: Act) {
    match a
    case Lookup(h, _, max) => s.worker.Idle? && WellFormed(h)
    case BindDevice(_) => s.worker.Known?
    case CheckOnline => s.worker.Bound?
    case CheckCount => s.worker.Counting?
    case Install(_, _) => s.worker.Admitted?
    case GiveUp => !s.worker.Idle?
    case EvictCode(_) => true
    case ReapCodes(_) => true
    case PanelRead(e, _) => e !in s.edits
    case PanelSave(e, _, _) => e in s.edits
    case Admin(op) => AdminAllowed(s, op)
  }

  /** New codes get fresh identifiers, no device and an allocated address; only the worker
      registers devices, and saving takes two steps. */
  predicate AdminAllowed(s: State, op: A.Op) {
    && !op.OBind? && !op.OMigrate? && !op.OSave?
    && (op.OCreate? ==> op.r.id !in s.issued && op.r.code.tun.Blank? && op.r.code.fp == "")
  }

  function Move(net: Net, s: State, a: Act): State
    requires Enabled(s, a) && !a.Admin?
  {
    match a
    case Lookup(h, userDisabled, max) =>
      if h.code in s.codes && Acceptable(net, s.codes[h.code], userDisabled)
      then s.(worker := Known(h, Ident(s.codes[h.code].user, s.codes[h.code].tun.ip, s.codes[h.code].fp, max)))
      else s
    case BindDevice(at) =>
      var w := s.worker;
      if Rejected(s.codes, w.h, w.id.fp) then s.(worker := Idle)
      else s.(codes := AfterRule(s.codes, w.h, w.id.fp, at), worker := Bound(w.h, w.id))
    case CheckOnline =>
      var w := s.worker;
      s.(worker := if w.id.max >= 0 && w.h.code !in s.ix.byCode then Counting(w.h, w.id) else Worker.Admitted(w.h, w.id))
    case CheckCount =>
      var w := s.worker;
      s.(worker := if w.id.max == 0 || OnlineCount(s.ix, w.id.user) >= w.id.max then Idle else Worker.Admitted(w.h, w.id))
    case Install(pid, mtu) => s.(ix := Upsert(s.ix, PeerOf(s.worker.h, s.worker.id, pid, mtu)), worker := Idle)
    case GiveUp => s.(worker := Idle)
    case EvictCode(c) => s.(ix := Evict(s.ix, c))
    case ReapCodes(dead) => s.(ix := Reap(s.ix, dead))
    case PanelRead(e, c) => if c in s.codes then s.(edits := s.edits[e := Edit(c, s.codes[c])]) else s
    case PanelSave(e, disabled, secret) =>
      var w := s.edits[e];
      s.(codes := A.Save(s.codes, w.code, Edited(w.c, disabled, secret)), edits := s.edits - {e})
  }

  /** The record as the panel writes it back: everything it did not change is as it was read. */
  function Edited(c: A.Code, disabled: Option<bool>, secret: Option<string>): A.Code {
    c.(disabled := if disabled.Some? then disabled.value else c.disabled,
       secret := if secret.Some? then secret.value else c.secret)
  }

  function OnlineCount(ix: Index, u: UserId): nat {
    |set c | c in ix.byCode && ix.byCode[c].user == u|
  }

  ghost predicate Next(net: Net, s: State, a: Act, s': State) {
    && Enabled(s, a)
    && if a.Admin? then
         && A.Step(s.codes, a.op, s'.codes) && s'.ix == s.ix && s'.worker == s.worker && s'.edits == s.edits
         && s'.issued == if a.op.OCreate? && a.op.r.id in s'.codes
                         then s.issued[a.op.r.id := Issue(s'.codes[a.op.r.id].user, s'.codes[a.op.r.id].tun)]
                         else s.issued
       else s' == Move(net, s, a)
  }

  ghost predicate Run(net: Net, ss: seq<State>, acts: seq<Act>) {
    && |ss| == |acts| + 1 && JustStarted(ss[0])
    && forall i | 0 <= i < |acts| :: Next(net, ss[i], acts[i], ss[i + 1])
  }

  lemma RunPrefix(net: Net, ss: seq<State>, acts: seq<Act>)
    requires Run(net, ss, acts) && acts != []
    ensures Run(net, ss[..|ss| - 1], acts[..|acts| - 1])
  {
    var tt, qq := ss[..|ss| - 1], acts[..|acts| - 1];
    forall i | 0 <= i < |qq| ensures Next(net, tt[i], qq[i], tt[i + 1]) {
      assert Next(net, ss[i], acts[i], ss[i + 1]);
    }
  }

  // ---------------------------------------------------------------- addresses and lookups

  predicate Issued(s: State, c: CodeId, u: UserId, ip: TunIP) {
    c in s.issued && s.issued[c] == Issue(u, A.At(ip))
  }

  predicate StoredOk(s: State, c: CodeId) {
    c in s.codes ==> c in s.issued && s.issued[c] == Issue(s.codes[c].user, s.codes[c].tun)
  }

  predicate OnlineOk(net: Net, s: State, c: CodeId) {
    c in s.ix.byCode ==>
      && Issued(s, c, s.ix.byCode[c].user, s.ix.byCode[c].tunIP)
      && GoodAddress(net, s.ix.byCode[c].tunIP)
      && (c in s.codes ==> Reached(s.ix, c))
  }

  predicate EditOk(s: State, e: EditId) {
    e in s.edits ==> var w := s.edits[e]; w.code in s.issued && s.issued[w.code] == Issue(w.c.user, w.c.tun)
  }

  /** The tunnel-address index finds the code's current session. */
  predicate Reached(ix: Index, c: CodeId) {
    && c in ix.byCode && ix.byCode[c].tunIP in ix.byTunIP
    && ix.byTunIP[ix.byCode[c].tunIP] == ix.byCode[c]
  }

  predicate WorkerOk(net: Net, s: State) {
    !s.worker.Idle? ==>
      && Issued(s, s.worker.h.code, s.worker.id.user, s.worker.id.tunIP)
      && GoodAddress(net, s.worker.id.tunIP)
  }

  /** No other stored code is online at the address the worker is about to install. */
  predicate Apart(s: State, c: CodeId) {
    s.worker.Idle? || c !in s.codes || c !in s.ix.byCode || c == s.worker.h.code
    || s.ix.byCode[c].tunIP != s.worker.id.tunIP
  }

  ghost predicate Inv(net: Net, s: State) {
    && Sound(s.ix) && A.Distinct(s.codes) && WorkerOk(net, s)
    && (forall c {:trigger StoredOk(s, c)} :: StoredOk(s, c))
    && (forall c {:trigger OnlineOk(net, s, c)} :: OnlineOk(net, s, c))
    && (forall e {:trigger EditOk(s, e)} :: EditOk(s, e))
    && (forall c {:trigger Apart(s, c)} :: Apart(s, c))
  }

  lemma EvictKeepsReached(ix: Index, c: CodeId, d: CodeId)
    requires Sound(ix) && Reached(ix, d) && c != d
    ensures Reached(Evict(ix, c), d)
  {
    EvictKeepsTunEntry(ix, c, d);
  }

  lemma {:induction false} ReapKeepsReached(ix: Index, dead: seq<CodeId>, d: CodeId)
    requires Sound(ix) && Reached(ix, d) && d !in dead
    ensures Reached(Reap(ix, dead), d)
    decreases |dead|
  {
    if dead != [] {
      EvictSound(ix, dead[0]);
      EvictKeepsReached(ix, dead[0], d);
      ReapKeepsReached(Evict(ix, dead[0]), dead[1..], d);
    }
  }

  lemma LookupKeeps(net: Net, s: State, a: Act)
    requires Inv(net, s) && a.Lookup? && Enabled(s, a)
    ensures Inv(net, Move(net, s, a))
  {
    var s' := Move(net, s, a);
    var h := a.h;
    assert StoredOk(s, h.code);
    forall c ensures StoredOk(s', c) && OnlineOk(net, s', c) { assert StoredOk(s, c) && OnlineOk(net, s, c); }
    forall e ensures EditOk(s', e) { assert EditOk(s, e); }
    forall c ensures Apart(s', c) {
      assert StoredOk(s, c) && OnlineOk(net, s, c);
      if c in s.codes && c in s.ix.byCode && c != h.code && h.code in s.codes && s.codes[h.code].tun.At? {
        assert s.codes[c].tun == A.At(s.ix.byCode[c].tunIP);
        assert s.codes[c].tun != s.codes[h.code].tun;
      }
    }
  }

  /** A step that leaves every code's owner and address as they were. */
  lemma SameTunsKeeps(net: Net, s: State, s': State)
    requires Inv(net, s) && s'.ix == s.ix && s'.issued == s.issued
    requires forall e | e in s'.edits :: e in s.edits && s'.edits[e] == s.edits[e]
    requires s'.worker == s.worker || s'.worker.Idle?
             || (!s.worker.Idle? && s'.worker.h == s.worker.h && s'.worker.id == s.worker.id)
    requires forall c | c in s'.codes :: c in s.codes && s'.codes[c].user == s.codes[c].user && s'.codes[c].tun == s.codes[c].tun
    ensures Inv(net, s')
  {
    forall c ensures StoredOk(s', c) { assert StoredOk(s, c); }
    forall c ensures OnlineOk(net, s', c) { assert OnlineOk(net, s, c); }
    forall e ensures EditOk(s', e) { assert EditOk(s, e); }
    forall c ensures Apart(s', c) { assert Apart(s, c); }
  }

  lemma DeviceKeepsTuns(s: State, at: int)
    requires s.worker.Known?
    ensures var codes' := AfterRule(s.codes, s.worker.h, s.worker.id.fp, at);
            forall c | c in codes' :: c in s.codes && codes'[c].user == s.codes[c].user && codes'[c].tun == s.codes[c].tun
  {
  }

  lemma InstallKeeps(net: Net, s: State, a: Act)
    requires Inv(net, s) && a.Install? && Enabled(s, a)
    ensures Inv(net, Move(net, s, a))
  {
    var s' := Move(net, s, a);
    var p := PeerOf(s.worker.h, s.worker.id, a.id, a.mtu);
    UpsertSound(s.ix, p);
    forall c ensures StoredOk(s', c) { assert StoredOk(s, c); }
    forall c ensures OnlineOk(net, s', c) { InstallOne(net, s, a, c); }
    forall e ensures EditOk(s', e) { assert EditOk(s, e); }
  }

  lemma InstallOne(net: Net, s: State, a: Act, c: CodeId)
    requires Inv(net, s) && a.Install? && Enabled(s, a)
    ensures OnlineOk(net, Move(net, s, a), c)
  {
    assert OnlineOk(net, s, c) && Apart(s, c);
  }

  lemma RemovalKeeps(net: Net, s: State, ix': Index)
    requires Inv(net, s) && Sound(ix')
    requires forall c | c in ix'.byCode :: c in s.ix.byCode && ix'.byCode[c] == s.ix.byCode[c]
    requires forall c | c in ix'.byCode && Reached(s.ix, c) :: Reached(ix', c)
    ensures Inv(net, s.(ix := ix'))
  {
    var s' := s.(ix := ix');
    forall c ensures StoredOk(s', c) { assert StoredOk(s, c); }
    forall c ensures OnlineOk(net, s', c) { assert OnlineOk(net, s, c); }
    forall e ensures EditOk(s', e) { assert EditOk(s, e); }
    forall c ensures Apart(s', c) { assert Apart(s, c); }
  }

  lemma CreateKeeps(net: Net, s: State, a: Act, s': State)
    requires Inv(net, s) && a.Admin? && a.op.OCreate? && Next(net, s, a, s')
    ensures Inv(net, s')
  {
    A.StepDistinctIff(s.codes, a.op, s'.codes);
    assert !A.Clash(s.codes, a.op, s'.codes);
    CreateShape(net, s, a, s');
    forall c ensures StoredOk(s', c) { assert StoredOk(s, c); }
    forall c ensures OnlineOk(net, s', c) { assert OnlineOk(net, s, c); }
    forall e ensures EditOk(s', e) { assert EditOk(s, e); }
    forall c ensures Apart(s', c) { assert Apart(s, c); }
  }

  /** A create adds at most one code, new in every respect. */
  lemma CreateShape(net: Net, s: State, a: Act, s': State)
    requires Inv(net, s) && a.Admin? && a.op.OCreate? && Next(net, s, a, s')
    ensures var id := a.op.r.id;
            && id !in s.codes && id !in s.ix.byCode && id !in s.issued
            && s'.ix == s.ix && s'.worker == s.worker && s'.edits == s.edits
            && ((s'.codes == s.codes && s'.issued == s.issued)
                || (id in s'.codes && s'.codes == s.codes[id := s'.codes[id]]
                    && s'.issued == s.issued[id := Issue(s'.codes[id].user, s'.codes[id].tun)]))
  {
    var r := a.op.r;
    var res :| A.Create(s.codes, r, s'.codes, res);
    assert r.id !in s.ix.byCode by { assert OnlineOk(net, s, r.id); }
    assert r.id !in s.codes by { assert StoredOk(s, r.id); }
  }

  lemma PanelReadKeeps(net: Net, s: State, a: Act)
    requires Inv(net, s) && a.PanelRead? && Enabled(s, a)
    ensures Inv(net, Move(net, s, a))
  {
    var s' := Move(net, s, a);
    forall c ensures StoredOk(s', c) && OnlineOk(net, s', c) && Apart(s', c) {
      assert StoredOk(s, c) && OnlineOk(net, s, c) && Apart(s, c);
    }
    forall e ensures EditOk(s', e) { assert EditOk(s, e) && StoredOk(s, a.c); }
  }

  lemma StepKeepsInv(net: Net, s: State, a: Act, s': State)
    requires Inv(net, s) && Next(net, s, a, s')
    ensures Inv(net, s')
  {
    match a
    case Lookup(_, _, _) => LookupKeeps(net, s, a);
    case BindDevice(at) => DeviceKeepsTuns(s, at); SameTunsKeeps(net, s, s');
    case CheckOnline => SameTunsKeeps(net, s, s');
    case CheckCount => SameTunsKeeps(net, s, s');
    case Install(_, _) => InstallKeeps(net, s, a);
    case GiveUp => SameTunsKeeps(net, s, s');
    case EvictCode(c) => EvictStep(net, s, c);
    case ReapCodes(dead) => ReapStep(net, s, dead);
    case PanelRead(_, _) => PanelReadKeeps(net, s, a);
    case PanelSave(e, _, _) =>
      assert EditOk(s, e) && StoredOk(s, s.edits[e].code);
      SameTunsKeeps(net, s, s');
    case Admin(op) =>
      if op.OCreate? {
        CreateKeeps(net, s, a, s');
      } else {
        A.StepKeepsTuns(s.codes, op, s'.codes);
        SameTunsKeeps(net, s, s');
      }
  }

  lemma EvictStep(net: Net, s: State, c: CodeId)
    requires Inv(net, s)
    ensures Inv(net, s.(ix := Evict(s.ix, c)))
  {
    EvictSound(s.ix, c);
    forall d | d in Evict(s.ix, c).byCode && Reached(s.ix, d) ensures Reached(Evict(s.ix, c), d) {
      EvictKeepsReached(s.ix, c, d);
    }
    RemovalKeeps(net, s, Evict(s.ix, c));
  }

  lemma ReapStep(net: Net, s: State, dead: seq<CodeId>)
    requires Inv(net, s)
    ensures Inv(net, s.(ix := Reap(s.ix, dead)))
  {
    ReapSound(s.ix, dead);
    forall d | d in Reap(s.ix, dead).byCode && Reached(s.ix, d) ensures Reached(Reap(s.ix, dead), d) {
      ReapKeepsReached(s.ix, dead, d);
    }
    RemovalKeeps(net, s, Reap(s.ix, dead));
  }

  lemma {:induction false} RunKeepsInv(net: Net, ss: seq<State>, acts: seq<Act>)
    requires Run(net, ss, acts)
    ensures Inv(net, ss[|acts|])
    decreases |acts|
  {
    if acts != [] {
      var n := |acts| - 1;
      RunPrefix(net, ss, acts);
      RunKeepsInv(net, ss[..n + 1], acts[..n]);
      assert Next(net, ss[n], acts[n], ss[n + 1]);
      StepKeepsInv(net, ss[n], acts[n], ss[n + 1]);
    }
  }

  lemma PrefixInv(net: Net, ss: seq<State>, acts: seq<Act>, k: nat)
    requires Run(net, ss, acts) && k <= |acts|
    ensures Inv(net, ss[k])
  {
    assert Run(net, ss[..k + 1], acts[..k]) by {
      forall i | 0 <= i < k ensures Next(net, ss[..k + 1][i], acts[..k][i], ss[..k + 1][i + 1]) {
        assert Next(net, ss[i], acts[i], ss[i + 1]);
      }
    }
    RunKeepsInv(net, ss[..k + 1], acts[..k]);
  }

  /** Isolation over every run: a packet admitted from any online session is never sealed for any
      client, then or at any later time. */
  lemma RunsIsolate(net: Net, ss: seq<State>, acts: seq<Act>, i: nat, j: nat, c: CodeId, p: Bytes)
    requires Run(net, ss, acts) && i <= j <= |acts|
    requires c in ss[i].ix.byCode && Admit(net, ss[i].ix.byCode[c], p).Admitted?
    ensures !Route(net, ss[j].ix, p).SealTo?
  {
    PrefixInv(net, ss, acts, i);
    assert OnlineOk(net, ss[i], c);
    NoClientReachesClient(net, ss[i].ix.byCode[c], p, ss[j].ix);
  }

  predicate Encoded(m: Packet4) {
    Proper(m) ==> Word(Encode(m), 12) == AddrNum(m.src) && Word(Encode(m), 16) == AddrNum(m.dst) && (IsTcpConnect(Encode(m)) <==> Opens(m))
  }

  /** Over every run: a packet admitted from an online code carries the very address that code was
      issued, no other stored code could have sent it, and it never opens a TCP connection to anything
      inside the tunnel network. */
  lemma RunsAdmitOwn(net: Net, ss: seq<State>, acts: seq<Act>, c: CodeId, d: CodeId, p: Bytes)
    requires Run(net, ss, acts)
    requires var s := ss[|acts|]; c in s.ix.byCode && Admit(net, s.ix.byCode[c], p).Admitted?
    ensures var s := ss[|acts|];
            && IsIpv4(p) && Issued(s, c, s.ix.byCode[c].user, TunIP(Word(p, 12)))
            && (Contains(net.pool, Word(p, 16)) ==> Word(p, 16) == net.gateway.v && !IsTcpConnect(p))
            && (c in s.codes && d in s.codes && d in s.ix.byCode && Admit(net, s.ix.byCode[d], p).Admitted? ==> d == c)
            && forall m {:trigger Encode(m)} | Proper(m) && Encode(m) == p ::
                 && Issued(s, c, s.ix.byCode[c].user, TunIP(AddrNum(m.src)))
                 && (Contains(net.pool, AddrNum(m.dst)) ==>
                       AddrNum(m.dst) == net.gateway.v && !(m.body.Tcp? && m.body.flags.syn && !m.body.flags.ack))
  {
    RunKeepsInv(net, ss, acts);
    forall m | Proper(m) ensures Encoded(m) { EncodedReads(m); }
    var s := ss[|acts|];
    AdmittedIff(net, s.ix.byCode[c], p);
    assert OnlineOk(net, s, c) && OnlineOk(net, s, d) && StoredOk(s, c) && StoredOk(s, d);
    if d in s.ix.byCode { AdmittedIff(net, s.ix.byCode[d], p); }
  }

  /** Routing agreement over every run: while a code exists, the reply to a packet admitted from
      its session goes back to that session, and to no other. */
  lemma RunsRouteBack(net: Net, ss: seq<State>, acts: seq<Act>, c: CodeId, p: Bytes, reply: Bytes)
    requires Run(net, ss, acts)
    requires var s := ss[|acts|]; c in s.codes && c in s.ix.byCode && Admit(net, s.ix.byCode[c], p).Admitted?
    requires IsIpv4(reply) && Word(reply, 16) == Word(p, 12)
    ensures var s := ss[|acts|];
            Route(net, s.ix, reply) == SealTo(s.ix.byCode[c]) <==>
            && |reply| <= s.ix.byCode[c].mtu
            && (Contains(net.pool, Word(reply, 12)) ==> Word(reply, 12) == net.gateway.v)
  {
    RunKeepsInv(net, ss, acts);
    var s := ss[|acts|];
    assert OnlineOk(net, s, c);
    ReplyReturns(net, s.ix.byCode[c], p, reply, s.ix);
  }

  // ---------------------------------------------------------------- the tunnel limit

  /** Every handshake of a code of `u` read a limit between 0 and `m`. */
  ghost predicate Limited(ss: seq<State>, acts: seq<Act>, u: UserId, m: int)
    requires |ss| == |acts| + 1
  {
    forall i | 0 <= i < |acts| :: LimitedStep(ss[i], acts[i], u, m)
  }

  predicate LimitedStep(s: State, a: Act, u: UserId, m: int) {
    a.Lookup? && a.h.code in s.codes && s.codes[a.h.code].user == u ==> 0 <= a.max <= m
  }

  ghost predicate WithinLimit(s: State, u: UserId, m: int) {
    && |OnlineOf(s.ix, u)| <= m
    && (!s.worker.Idle? && s.worker.id.user == u ==> 0 <= s.worker.id.max <= m)
    && (s.worker.Admitted? && s.worker.id.user == u ==> |OnlineOf(s.ix, u) + {s.worker.h.code}| <= m)
  }

  lemma FewerOnline(ix: Index, ix': Index, u: UserId)
    requires forall c | c in ix'.byCode :: c in ix.byCode && ix'.byCode[c] == ix.byCode[c]
    ensures OnlineOf(ix', u) <= OnlineOf(ix, u)
  {
  }

  lemma StepWithinLimit(net: Net, s: State, a: Act, s': State, u: UserId, m: nat)
    requires Inv(net, s) && Next(net, s, a, s') && WithinLimit(s, u, m) && LimitedStep(s, a, u, m)
    ensures WithinLimit(s', u, m)
  {
    match a
    case Install(pid, mtu) => InstallWithinLimit(net, s, a, u, m);
    case CheckOnline =>
      var w := s.worker;
      if w.h.code in s.ix.byCode && w.id.user == u {
        assert OnlineOk(net, s, w.h.code);
        assert OnlineOf(s.ix, u) + {w.h.code} == OnlineOf(s.ix, u);
      }
    case CheckCount =>
      assert OnlineCount(s.ix, s.worker.id.user) == |OnlineOf(s.ix, s.worker.id.user)|;
    case EvictCode(c) => FewerKeepsLimit(s, s', u, m);
    case ReapCodes(dead) => ReapSound(s.ix, dead); FewerKeepsLimit(s, s', u, m);
    case _ =>
  }

  lemma InstallWithinLimit(net: Net, s: State, a: Act, u: UserId, m: nat)
    requires Inv(net, s) && a.Install? && Enabled(s, a) && WithinLimit(s, u, m)
    ensures WithinLimit(Move(net, s, a), u, m)
  {
    InstallOnline(net, s, a, u);
    assert Move(net, s, a).worker == Idle;
  }

  lemma InstallOnline(net: Net, s: State, a: Act, u: UserId)
    requires Inv(net, s) && a.Install? && Enabled(s, a)
    ensures OnlineOf(Move(net, s, a).ix, u) ==
            if s.worker.id.user == u then OnlineOf(s.ix, u) + {s.worker.h.code} else OnlineOf(s.ix, u)
  {
    var p := PeerOf(s.worker.h, s.worker.id, a.id, a.mtu);
    assert OnlineOk(net, s, s.worker.h.code);
    assert Upsert(s.ix, p).byCode == s.ix.byCode[p.code := p];
  }

  lemma FewerKeepsLimit(s: State, s': State, u: UserId, m: nat)
    requires WithinLimit(s, u, m) && s'.worker == s.worker
    requires forall c | c in s'.ix.byCode :: c in s.ix.byCode && s'.ix.byCode[c] == s.ix.byCode[c]
    ensures WithinLimit(s', u, m)
  {
    FewerOnline(s.ix, s'.ix, u);
    SubsetSize(OnlineOf(s'.ix, u), OnlineOf(s.ix, u));
    if s.worker.Admitted? {
      SubsetSize(OnlineOf(s'.ix, u) + {s.worker.h.code}, OnlineOf(s.ix, u) + {s.worker.h.code});
    }
  }

  /** In no reachable state does a user have more codes online than the largest limit any of its
      handshakes read. */
  lemma {:induction false} TunnelLimitHolds(net: Net, ss: seq<State>, acts: seq<Act>, u: UserId, m: nat)
    requires Run(net, ss, acts) && Limited(ss, acts, u, m)
    ensures WithinLimit(ss[|acts|], u, m)
    decreases |acts|
  {
    if acts == [] {
      assert OnlineOf(Empty, u) == {};
    } else {
      var n := |acts| - 1;
      RunPrefix(net, ss, acts);
      var tt, qq := ss[..n + 1], acts[..n];
      assert Limited(tt, qq, u, m) by {
        forall i | 0 <= i < n ensures LimitedStep(tt[i], qq[i], u, m) { assert LimitedStep(ss[i], acts[i], u, m); }
      }
      TunnelLimitHolds(net, tt, qq, u, m);
      RunKeepsInv(net, tt, qq);
      assert Next(net, ss[n], acts[n], ss[n + 1]) && LimitedStep(ss[n], acts[n], u, m);
      StepWithinLimit(net, ss[n], acts[n], ss[n + 1], u, m);
    }
  }

  /** A limit of 0 means none at all: in every run in which the handshakes of a user's codes read 0,
      no code of that user is ever online. */
  lemma ZeroLimitKeepsOffline(net: Net, ss: seq<State>, acts: seq<Act>, u: UserId, c: CodeId)
    requires Run(net, ss, acts) && Limited(ss, acts, u, 0) && c in ss[|acts|].ix.byCode
    ensures ss[|acts|].ix.byCode[c].user != u
  {
    TunnelLimitHolds(net, ss, acts, u, 0);
    assert c !in OnlineOf(ss[|acts|].ix, u);
  }

  // ---------------------------------------------------------------- who may change a fingerprint

  predicate OwnFp(h: Hello, fp: string) { fp == h.fp || (h.fp2 != "" && fp == h.fp2) }

  /** How one step may change a stored fingerprint: from empty to one of the connecting device's, from
      that device's first to its second, or to empty by an unbind. */
  predicate FpChangeAllowed(s: State, a: Act, c: CodeId, was: string, now: string) {
    || now == was
    || (a == Admin(A.OUnbind(c)) && now == "")
    || (a.BindDevice? && s.worker.Known? && s.worker.h.code == c && was == "" && OwnFp(s.worker.h, now))
    || (a.BindDevice? && s.worker.Known? && s.worker.h.code == c && was == s.worker.h.fp && now == s.worker.h.fp2 != "")
  }

  /** Step `k` keeps the three rules for code `c`. */
  predicate KeepsRules(ss: seq<State>, acts: seq<Act>, k: nat, c: CodeId)
    requires |ss| == |acts| + 1
  {
    k < |acts| && c in ss[k].codes && c in ss[k + 1].codes
    ==> FpChangeAllowed(ss[k], acts[k], c, ss[k].codes[c].fp, ss[k + 1].codes[c].fp)
  }

  predicate Touches(a: Act, e: EditId) {
    (a.PanelRead? || a.PanelSave?) && a.e == e
  }

  /** From the read at step `i` until step `j`, edit `e` is open. */
  ghost predicate OpenSince(ss: seq<State>, acts: seq<Act>, i: nat, j: nat, e: EditId)
    requires |ss| == |acts| + 1
  {
    && i < j <= |acts| && acts[i].PanelRead? && acts[i].e == e && acts[i].c in ss[i].codes
    && forall k | i < k < j :: !Touches(acts[k], e)
  }

  /** The save at step `j` ends an edit read at step `i`, and the code's fingerprint is no longer the
      one it had then. */
  ghost predicate Overtaken(ss: seq<State>, acts: seq<Act>, i: nat, j: nat)
    requires |ss| == |acts| + 1
  {
    && j < |acts| && acts[j].PanelSave? && OpenSince(ss, acts, i, j, acts[j].e)
    && acts[i].c in ss[j].codes && ss[j].codes[acts[i].c].fp != ss[i].codes[acts[i].c].fp
  }

  ghost predicate NoneOvertaken(ss: seq<State>, acts: seq<Act>)
    requires |ss| == |acts| + 1
  {
    forall i, j | 0 <= i < j < |acts| :: !Overtaken(ss, acts, i, j)
  }

  /** An open edit holds the record as it was when read. */
  lemma {:induction false} OpenHoldsRead(net: Net, ss: seq<State>, acts: seq<Act>, i: nat, j: nat, e: EditId)
    requires Run(net, ss, acts) && OpenSince(ss, acts, i, j, e)
    ensures e in ss[j].edits && ss[j].edits[e] == Edit(acts[i].c, ss[i].codes[acts[i].c])
    decreases j
  {
    assert Next(net, ss[j - 1], acts[j - 1], ss[j]);
    if i < j - 1 {
      OpenHoldsRead(net, ss, acts, i, j - 1, e);
      assert !Touches(acts[j - 1], e);
    }
  }

  lemma {:induction false} HeldWasRead(net: Net, ss: seq<State>, acts: seq<Act>, j: nat, e: EditId) returns (i: nat)
    requires Run(net, ss, acts) && j <= |acts| && e in ss[j].edits
    ensures OpenSince(ss, acts, i, j, e)
    decreases j
  {
    assert Next(net, ss[j - 1], acts[j - 1], ss[j]);
    if Touches(acts[j - 1], e) {
      i := j - 1;
    } else {
      i := HeldWasRead(net, ss, acts, j - 1, e);
    }
  }

  /** The save writes back another fingerprint than the one stored. */
  predicate SavesOver(s: State, a: Act, c: CodeId) {
    a.PanelSave? && a.e in s.edits && s.edits[a.e].code == c && c in s.codes && s.edits[a.e].c.fp != s.codes[c].fp
  }

  lemma StepFp(net: Net, s: State, a: Act, s': State, c: CodeId)
    requires Inv(net, s) && Next(net, s, a, s') && c in s.codes && c in s'.codes
    ensures FpChangeAllowed(s, a, c, s.codes[c].fp, s'.codes[c].fp) <==> !SavesOver(s, a, c)
  {
    if a.Admin? && a.op.OCreate? {
      var res :| A.Create(s.codes, a.op.r, s'.codes, res);
      assert StoredOk(s, a.op.r.id);
    }
  }

  lemma SavesOverIff(net: Net, ss: seq<State>, acts: seq<Act>, j: nat)
    requires Run(net, ss, acts) && j < |acts|
    ensures (exists c :: SavesOver(ss[j], acts[j], c)) <==> (exists i | 0 <= i < j :: Overtaken(ss, acts, i, j))
  {
    assert Next(net, ss[j], acts[j], ss[j + 1]);
    if c :| SavesOver(ss[j], acts[j], c) {
      var i := HeldWasRead(net, ss, acts, j, acts[j].e);
      OpenHoldsRead(net, ss, acts, i, j, acts[j].e);
      assert Overtaken(ss, acts, i, j);
    }
    if i: nat :| i < j && Overtaken(ss, acts, i, j) {
      OpenHoldsRead(net, ss, acts, i, j, acts[j].e);
      assert SavesOver(ss[j], acts[j], acts[i].c);
    }
  }

  /** Over every run: stored fingerprints change by the three rules only, if and only if no panel save
      comes when the fingerprint of its code differs from the one the panel read.  (A change that was
      undone in between does no harm: the save then writes the same value.) */
  lemma FpRulesIff(net: Net, ss: seq<State>, acts: seq<Act>)
    requires Run(net, ss, acts)
    ensures (forall k: nat, c: CodeId :: KeepsRules(ss, acts, k, c)) <==> NoneOvertaken(ss, acts)
  {
    if forall k: nat, c: CodeId :: KeepsRules(ss, acts, k, c) {
      forall i, j | 0 <= i < j < |acts| ensures !Overtaken(ss, acts, i, j) {
        if Overtaken(ss, acts, i, j) {
          assert KeepsRules(ss, acts, j, acts[i].c);
          OpenHoldsRead(net, ss, acts, i, j, acts[j].e);
          PrefixInv(net, ss, acts, j);
          assert Next(net, ss[j], acts[j], ss[j + 1]);
          StepFp(net, ss[j], acts[j], ss[j + 1], acts[i].c);
        }
      }
    }
    if NoneOvertaken(ss, acts) {
      forall k: nat, c: CodeId ensures KeepsRules(ss, acts, k, c) {
        if k < |acts| && c in ss[k].codes && c in ss[k + 1].codes {
          PrefixInv(net, ss, acts, k);
          assert Next(net, ss[k], acts[k], ss[k + 1]);
          SavesOverIff(net, ss, acts, k);
          StepFp(net, ss[k], acts[k], ss[k + 1], c);
        }
      }
    }
  }

  /** A bind, upgrade or unbind of `c`. */
  predicate Rebinds(s: State, a: Act, c: CodeId) {
    a == Admin(A.OUnbind(c)) || (a.BindDevice? && s.worker.Known? && s.worker.h.code == c)
  }

  lemma StepKeepsGone(net: Net, s: State, a: Act, s': State, c: CodeId)
    requires Next(net, s, a, s') && c in s.issued && c !in s.codes
    ensures c in s'.issued && c !in s'.codes
  {
    if a.Admin? && a.op.OCreate? {
      var res :| A.Create(s.codes, a.op.r, s'.codes, res);
    }
  }

  /** A code stored before and after a step back is stored in between: identifiers are not reused. */
  lemma StoredBetween(net: Net, ss: seq<State>, acts: seq<Act>, i: nat, k: nat, c: CodeId)
    requires Run(net, ss, acts) && i <= k < |acts| && c in ss[i].codes && c in ss[k + 1].codes
    ensures c in ss[k].codes
  {
    PrefixInv(net, ss, acts, i);
    IssuedStays(net, ss, acts, i, k, c);
    assert Next(net, ss[k], acts[k], ss[k + 1]);
    if c !in ss[k].codes { StepKeepsGone(net, ss[k], acts[k], ss[k + 1], c); }
  }

  /** A step that keeps the rules and changes the fingerprint is a bind, upgrade or unbind. */
  lemma ChangeIsRebinding(ss: seq<State>, acts: seq<Act>, k: nat, c: CodeId)
    requires |ss| == |acts| + 1 && k < |acts| && KeepsRules(ss, acts, k, c)
    requires c in ss[k].codes && c in ss[k + 1].codes && ss[k].codes[c].fp != ss[k + 1].codes[c].fp
    ensures Rebinds(ss[k], acts[k], c)
  {
  }

  /** What overtakes the first such save is a bind, upgrade or unbind of that very code, between the
      panel's read and its save. */
  lemma {:induction false} OvertakenByRebinding(net: Net, ss: seq<State>, acts: seq<Act>, i: nat, j: nat, c: CodeId)
    returns (k: nat)
    requires Run(net, ss, acts) && i <= j <= |acts|
    requires c in ss[i].codes && c in ss[j].codes && ss[i].codes[c].fp != ss[j].codes[c].fp
    requires forall m: nat | m < j :: KeepsRules(ss, acts, m, c)
    ensures i <= k < j && Rebinds(ss[k], acts[k], c)
    ensures c in ss[k].codes && c in ss[k + 1].codes && ss[k].codes[c].fp != ss[k + 1].codes[c].fp
    decreases j
  {
    k := j - 1;
    StoredBetween(net, ss, acts, i, k, c);
    if ss[k].codes[c].fp == ss[k + 1].codes[c].fp {
      k := OvertakenByRebinding(net, ss, acts, i, k, c);
    } else {
      ChangeIsRebinding(ss, acts, k, c);
    }
  }

  lemma {:induction false} IssuedStays(net: Net, ss: seq<State>, acts: seq<Act>, i: nat, j: nat, c: CodeId)
    requires Run(net, ss, acts) && i <= j <= |acts| && Inv(net, ss[i]) && c in ss[i].codes
    ensures c in ss[j].issued
    decreases j
  {
    if i < j {
      IssuedStays(net, ss, acts, i, j - 1, c);
      assert Next(net, ss[j - 1], acts[j - 1], ss[j]);
    } else {
      assert StoredOk(ss[i], c);
    }
  }

  // ---------------------------------------------------------------- the device lock

  /** While a code exists, its stored fingerprint is what the worker read, or unbound since; once
      the device rules ran, it is one of the connecting device's own. */
  predicate DeviceInv(s: State) {
    s.worker.Idle? || s.worker.h.code !in s.codes || s.codes[s.worker.h.code].fp == ""
    || if s.worker.Known? then s.codes[s.worker.h.code].fp == s.worker.id.fp
       else OwnFp(s.worker.h, s.codes[s.worker.h.code].fp)
  }

  lemma StepDevice(net: Net, s: State, a: Act, s': State)
    requires Inv(net, s) && DeviceInv(s) && Next(net, s, a, s')
    requires s.worker.Idle? || !SavesOver(s, a, s.worker.h.code)
    ensures DeviceInv(s')
  {
    if a.Admin? && a.op.OCreate? {
      var res :| A.Create(s.codes, a.op.r, s'.codes, res);
      assert StoredOk(s, a.op.r.id);
    }
  }

  /** Over every run in which no panel save is overtaken by a change of its code's fingerprint, no
      handshake gets past the device rules while the code is bound to another device. */
  lemma DeviceLock(net: Net, ss: seq<State>, acts: seq<Act>, n: nat)
    requires Run(net, ss, acts) && NoneOvertaken(ss, acts) && n <= |acts|
    ensures DeviceInv(ss[n])
    decreases n
  {
    if n > 0 {
      DeviceLock(net, ss, acts, n - 1);
      PrefixInv(net, ss, acts, n - 1);
      assert Next(net, ss[n - 1], acts[n - 1], ss[n]);
      SavesOverIff(net, ss, acts, n - 1);
      StepDevice(net, ss[n - 1], acts[n - 1], ss[n]);
    }
  }

  /** The fingerprint a device is bound by: the second if it sends one. */
  function Strongest(h: Hello): string { if h.fp2 != "" then h.fp2 else h.fp }

  /** The device rules on a record nobody has changed since the worker read it: another device is refused,
      and the device that gets past is bound by its strongest fingerprint. */
  lemma RulesOnFresh(net: Net, s: State, at: int)
    requires s.worker.Known? && WellFormed(s.worker.h) && s.worker.h.code in s.codes
    requires s.codes[s.worker.h.code].fp == s.worker.id.fp
    ensures var h, s' := s.worker.h, Move(net, s, BindDevice(at));
            var stored := s.codes[h.code].fp;
            && (s'.worker.Idle? <==> stored != "" && stored != h.fp && (h.fp2 == "" || stored != h.fp2))
            && (s'.worker.Idle? ==> s'.codes == s.codes)
            && (!s'.worker.Idle? ==> h.code in s'.codes && s'.codes[h.code].fp == Strongest(h))
  {
  }

  predicate WorkerWellFormed(s: State) { s.worker.Idle? || WellFormed(s.worker.h) }

  lemma {:induction false} RunWellFormed(net: Net, ss: seq<State>, acts: seq<Act>, n: nat)
    requires Run(net, ss, acts) && n <= |acts|
    ensures WorkerWellFormed(ss[n])
    decreases n
  {
    if n > 0 {
      RunWellFormed(net, ss, acts, n - 1);
      assert Next(net, ss[n - 1], acts[n - 1], ss[n]);
    }
  }

  /** What can take a stored fingerprint away: an unbind, an overtaken save, or a device whose first
      fingerprint it is and that brings a second. */
  ghost predicate Loosens(s: State, a: Act, c: CodeId, fp: string) {
    || a == Admin(A.OUnbind(c)) || SavesOver(s, a, c)
    || (a.Lookup? && a.h.code == c && a.h.fp == fp && a.h.fp2 != "")
  }

  /** The code, while it exists, is bound by `fp`, and a worker busy with it has read that. */
  predicate BoundTo(s: State, c: CodeId, fp: string) {
    && c in s.issued && (c in s.codes ==> s.codes[c].fp == fp)
    && (s.worker.Known? && s.worker.h.code == c ==> s.worker.id.fp == fp && !(s.worker.h.fp == fp && s.worker.h.fp2 != ""))
  }

  lemma StepBoundTo(net: Net, s: State, a: Act, s': State, c: CodeId, fp: string)
    requires Inv(net, s) && Next(net, s, a, s') && WorkerWellFormed(s)
    requires fp != "" && BoundTo(s, c, fp) && !Loosens(s, a, c, fp)
    ensures BoundTo(s', c, fp)
  {
    if c !in s.codes { StepKeepsGone(net, s, a, s', c); }
    if a.Admin? && a.op.OCreate? {
      var res :| A.Create(s.codes, a.op.r, s'.codes, res);
      assert StoredOk(s, a.op.r.id);
    }
  }

  lemma {:induction false} StaysBoundTo(net: Net, ss: seq<State>, acts: seq<Act>, i: nat, j: nat, c: CodeId, fp: string)
    requires Run(net, ss, acts) && i <= j <= |acts| && fp != "" && BoundTo(ss[i], c, fp)
    requires forall k | i <= k < j :: !Loosens(ss[k], acts[k], c, fp)
    ensures BoundTo(ss[j], c, fp)
    decreases j
  {
    if i < j {
      StaysBoundTo(net, ss, acts, i, j - 1, c, fp);
      StepAtBoundTo(net, ss, acts, j - 1, c, fp);
    }
  }

  lemma StepAtBoundTo(net: Net, ss: seq<State>, acts: seq<Act>, k: nat, c: CodeId, fp: string)
    requires Run(net, ss, acts) && k < |acts| && fp != "" && BoundTo(ss[k], c, fp) && !Loosens(ss[k], acts[k], c, fp)
    ensures BoundTo(ss[k + 1], c, fp)
  {
    PrefixInv(net, ss, acts, k);
    RunWellFormed(net, ss, acts, k);
    assert Next(net, ss[k], acts[k], ss[k + 1]);
    StepBoundTo(net, ss[k], acts[k], ss[k + 1], c, fp);
  }

  /** Over every run: once a device has got past on a record nobody changed meanwhile, a hello that does
      not bring its strongest fingerprint is refused - a clone that shares only the first one, say -
      until an unbind, an overtaken save, or a device that has it as its first and brings another. */
  lemma CloneRefused(net: Net, ss: seq<State>, acts: seq<Act>, i: nat, j: nat)
    requires Run(net, ss, acts) && i < j < |acts| && acts[i].BindDevice? && acts[j].BindDevice?
    requires ss[i].worker.Known? && ss[j].worker.Known?
    requires var s, s' := ss[i], ss[i + 1];
             s.worker.h.code in s.codes && s.codes[s.worker.h.code].fp == s.worker.id.fp && s'.worker.Bound?
    requires var h, g := ss[i].worker.h, ss[j].worker.h;
             g.code == h.code && g.fp != Strongest(h) && g.fp2 != Strongest(h)
    requires forall k | i < k < j :: !Loosens(ss[k], acts[k], ss[i].worker.h.code, Strongest(ss[i].worker.h))
    ensures ss[j + 1].worker.Idle? && ss[j + 1].codes == ss[j].codes
  {
    var h, c := ss[i].worker.h, ss[i].worker.h.code;
    assert Next(net, ss[i], acts[i], ss[i + 1]) && Next(net, ss[j], acts[j], ss[j + 1]);
    RunWellFormed(net, ss, acts, i);
    RunWellFormed(net, ss, acts, j);
    PrefixInv(net, ss, acts, i);
    assert StoredOk(ss[i], c);
    RulesOnFresh(net, ss[i], acts[i].at);
    StaysBoundTo(net, ss, acts, i + 1, j, c, Strongest(h));
  }

  const EDIT := EditId(1)

  /** Two clients of one code, on different devices. */
  predicate Rivals(one: Hello, two: Hello) {
    one.code == two.code && one.fp != two.fp && one.fp != "" && two.fp != "" && one.fp2 == "" && two.fp2 == ""
  }

  /** The panel reads the record, device one is registered, the panel saves, device two comes. */
  function TwoDevices(one: Hello, two: Hello): seq<Act> {
    [PanelRead(EDIT, one.code), Lookup(one, false, -1), BindDevice(1), GiveUp,
     PanelSave(EDIT, None, None), Lookup(two, false, -1), BindDevice(2)]
  }

  function Record(u: UserId, ip: TunIP, fp: string, at: int): A.Code {
    A.Code(u, A.At(ip), "s", false, fp, at, at)
  }

  /** The code bound to `fp` at time `at`, the worker at `w`, and the panel's edit open or not. */
  function Stage(k: CodeId, u: UserId, ip: TunIP, fp: string, at: int, w: Worker, open: bool): State {
    State(map[k := Record(u, ip, fp, at)], Empty, w,
          if open then map[EDIT := Edit(k, Record(u, ip, "", 0))] else map[], map[k := Issue(u, A.At(ip))])
  }

  /** A server started over a bucket with one unbound code, and its states along that schedule. */
  function TwoDeviceStates(u: UserId, ip: TunIP, one: Hello, two: Hello): seq<State> {
    var k, id := one.code, Ident(u, ip, "", -1);
    [Stage(k, u, ip, "", 0, Idle, false), Stage(k, u, ip, "", 0, Idle, true), Stage(k, u, ip, "", 0, Known(one, id), true),
     Stage(k, u, ip, one.fp, 1, Bound(one, id), true), Stage(k, u, ip, one.fp, 1, Idle, true),
     Stage(k, u, ip, "", 0, Idle, false), Stage(k, u, ip, "", 0, Known(two, id), false), Stage(k, u, ip, two.fp, 2, Bound(two, id), false)]
  }

  lemma FirstDevice(net: Net, u: UserId, ip: TunIP, one: Hello, two: Hello, i: nat)
    requires GoodAddress(net, ip) && Rivals(one, two) && i < 4
    ensures var ss := TwoDeviceStates(u, ip, one, two); Next(net, ss[i], TwoDevices(one, two)[i], ss[i + 1])
  {
    var k := one.code;
    var free := Record(u, ip, "", 0);
    if i == 0 {
      assert map[][EDIT := Edit(k, free)] == map[EDIT := Edit(k, free)];
    } else if i == 2 {
      assert map[k := free][k := Record(u, ip, one.fp, 1)] == map[k := Record(u, ip, one.fp, 1)];
    }
  }

  lemma SecondDevice(net: Net, u: UserId, ip: TunIP, one: Hello, two: Hello, i: nat)
    requires GoodAddress(net, ip) && Rivals(one, two) && 4 <= i < 7
    ensures var ss := TwoDeviceStates(u, ip, one, two); Next(net, ss[i], TwoDevices(one, two)[i], ss[i + 1])
  {
    var k := one.code;
    var free := Record(u, ip, "", 0);
    if i == 4 {
      assert Edited(free, None, None) == free;
      assert map[k := Record(u, ip, one.fp, 1)][k := free] == map[k := free];
      assert map[EDIT := Edit(k, free)] - {EDIT} == map[];
    } else if i == 6 {
      assert map[k := free][k := Record(u, ip, two.fp, 2)] == map[k := Record(u, ip, two.fp, 2)];
    }
  }

  /** The exception matters: from a freshly started server, a rename that read the record before the
      first device was registered lets a second device past the device rules, and nobody unbound. */
  lemma OvertakenSaveFreesCode(net: Net, u: UserId, ip: TunIP, one: Hello, two: Hello)
    requires GoodAddress(net, ip) && Rivals(one, two)
    ensures var ss, acts := TwoDeviceStates(u, ip, one, two), TwoDevices(one, two);
            && Run(net, ss, acts) && Overtaken(ss, acts, 0, 4)
            && A.BindVerdict(ss[4].codes, two.code, two.fp).Mismatch?
            && ss[7].worker.Bound? && ss[7].worker.h == two && A.BindVerdict(ss[7].codes, two.code, two.fp).Same?
  {
    var ss, acts := TwoDeviceStates(u, ip, one, two), TwoDevices(one, two);
    forall i | 0 <= i < |acts| ensures Next(net, ss[i], acts[i], ss[i + 1]) {
      if i < 4 { FirstDevice(net, u, ip, one, two, i); } else { SecondDevice(net, u, ip, one, two, i); }
    }
    assert JustStarted(ss[0]);
    assert forall k | 0 < k < 4 :: !Touches(acts[k], EDIT);
    assert OpenSince(ss, acts, 0, 4, EDIT);
  }

  // ---------------------------------------------------------------- one handshake, undisturbed

  /** All steps of one handshake in a row; `sealed` says that the accept message could be built,
      sent and keyed. */
  function Serve(net: Net, s: State, h: Hello, userDisabled: bool, max: int, at: int, sealed: bool, pid: PeerId, mtu: int): State
    requires s.worker.Idle? && WellFormed(h)
  {
    var s1 := Move(net, s, Lookup(h, userDisabled, max));
    if s1.worker.Idle? then s1 else
    var s2 := Move(net, s1, BindDevice(at));
    if s2.worker.Idle? then s2 else
    var s3 := Move(net, s2, CheckOnline);
    var s4 := if s3.worker.Counting? then Move(net, s3, CheckCount) else s3;
    if s4.worker.Idle? then s4
    else Move(net, s4, if sealed then Install(pid, mtu) else GiveUp)
  }
}

module TunnelServer {
  import opened Prelude
  import opened Ipv4
  import opened PeerIndex
  import opened Isolation
  import opened TunnelSpec
  import A = AccessCodes

  datatype Reason = CodeDisabled | UserDisabled | AddrInvalid | DeviceMismatch | TunnelLimit
  datatype Reply = Silent | Reject(reason: Reason) | Accept(prev: Option<Peer>)

  /** The answer to an authenticated hello: the first of the five checks that fails names itself,
      and a session replaces its own predecessor only. */
  predicate Answers(net: Net, s: State, h: Hello, userDisabled: bool, max: int, sealed: bool, reply: Reply)
    requires h.code in s.codes
  {
    var c := s.codes[h.code];
    match reply
    case Reject(CodeDisabled) => c.disabled
    case Reject(UserDisabled) => userDisabled && !c.disabled
    case Reject(AddrInvalid) => !c.disabled && !userDisabled && !(c.tun.At? && GoodAddress(net, c.tun.ip))
    case Reject(DeviceMismatch) => Acceptable(net, c, userDisabled) && Rejected(s.codes, h, c.fp)
    case Reject(TunnelLimit) => Passes(net, s, h, userDisabled) && Full(s, h, max)
    case Silent => Passes(net, s, h, userDisabled) && !Full(s, h, max) && !sealed
    case Accept(prev) =>
      && Passes(net, s, h, userDisabled) && !Full(s, h, max) && sealed
      && prev == if h.code in s.ix.byCode then Some(s.ix.byCode[h.code]) else None
  }

  predicate Passes(net: Net, s: State, h: Hello, userDisabled: bool) {
    h.code in s.codes && Acceptable(net, s.codes[h.code], userDisabled) && !Rejected(s.codes, h, s.codes[h.code].fp)
  }

  /** A reconnect of a code already online takes no new slot. */
  predicate Full(s: State, h: Hello, max: int)
    requires h.code in s.codes
  {
    max >= 0 && h.code !in s.ix.byCode && (max == 0 || OnlineCount(s.ix, s.codes[h.code].user) >= max)
  }

  /** A device other than the one the code is bound to. */
  predicate OtherDevice(h: Hello, stored: string) {
    stored != "" && stored != h.fp && (h.fp2 == "" || stored != h.fp2)
  }

  /** The answer in the record's and the session table's own terms: the checks in their order. */
  ghost predicate HelloAnswered(net: Net, s: State, h: Hello, userDisabled: bool, max: int, sealed: bool, reply: Reply)
    requires h.code in s.codes
  {
    var c := s.codes[h.code];
    var noAddress := !c.tun.At? || !Contains(net.pool, c.tun.ip.v) || c.tun.ip == net.gateway;
    var full := max >= 0 && h.code !in s.ix.byCode
                && (max == 0 || |set d | d in s.ix.byCode && s.ix.byCode[d].user == c.user| >= max);
    && (reply == Reject(CodeDisabled) <==> c.disabled)
    && (reply == Reject(UserDisabled) <==> !c.disabled && userDisabled)
    && (reply == Reject(AddrInvalid) <==> !c.disabled && !userDisabled && noAddress)
    && (reply == Reject(DeviceMismatch) <==> !c.disabled && !userDisabled && !noAddress && OtherDevice(h, c.fp))
    && (reply == Reject(TunnelLimit) <==> !c.disabled && !userDisabled && !noAddress && !OtherDevice(h, c.fp) && full)
    && (reply == Silent <==> !c.disabled && !userDisabled && !noAddress && !OtherDevice(h, c.fp) && !full && !sealed)
    && (reply.Accept? <==> !c.disabled && !userDisabled && !noAddress && !OtherDevice(h, c.fp) && !full && sealed)
  }

  /** What it writes: once the device got past, the code is bound to its stronger fingerprint; nothing else
      but the times of binding and of last use changes, and nothing at all when it did not. */
  predicate HelloStored(was: A.Codes, h: Hello, reply: Reply, at: int, now: A.Codes)
    requires h.code in was
  {
    if reply.Reject? && !reply.reason.TunnelLimit? then now == was
    else
      && h.code in now && now[h.code].fp == (if h.fp2 != "" then h.fp2 else h.fp)
      && (was[h.code].fp == "" ==> now[h.code].boundAt == now[h.code].seenAt == at)
      && (was[h.code].fp != "" ==> now[h.code].boundAt == was[h.code].boundAt)
      && now == was[h.code := was[h.code].(fp := now[h.code].fp, boundAt := now[h.code].boundAt, seenAt := now[h.code].seenAt)]
  }

  /** What it installs: on acceptance the code's session, in place of the one it had, which is returned;
      else nothing. */
  ghost predicate HelloInstalled(s: State, h: Hello, reply: Reply, pid: PeerId, mtu: int, ix: Index)
    requires h.code in s.codes
  {
    if reply.Accept? then
      && s.codes[h.code].tun.At?
      && ix.byCode == s.ix.byCode[h.code := Peer(pid, h.code, s.codes[h.code].user, s.codes[h.code].tun.ip, h.from, mtu)]
      && Reached(ix, h.code) && h.from in ix.byAddr && ix.byAddr[h.from] == ix.byCode[h.code]
      && reply.prev == (if h.code in s.ix.byCode then Some(s.ix.byCode[h.code]) else None)
    else ix == s.ix
  }

  /** All three, for the state that the steps of one handshake in a row lead to. */
  ghost predicate HelloDone(net: Net, s: State, h: Hello, userDisabled: bool, max: int, at: int, sealed: bool, pid: PeerId, mtu: int, reply: Reply)
    requires s.worker.Idle? && WellFormed(h) && h.code in s.codes
  {
    var s' := Serve(net, s, h, userDisabled, max, at, sealed, pid, mtu);
    && HelloAnswered(net, s, h, userDisabled, max, sealed, reply)
    && HelloStored(s.codes, h, reply, at, s'.codes) && HelloInstalled(s, h, reply, pid, mtu, s'.ix)
  }

  lemma AnswersSay(net: Net, s: State, h: Hello, userDisabled: bool, max: int, at: int, sealed: bool, pid: PeerId, mtu: int, reply: Reply)
    requires s.worker.Idle? && WellFormed(h) && h.code in s.codes && Answers(net, s, h, userDisabled, max, sealed, reply)
    ensures HelloDone(net, s, h, userDisabled, max, at, sealed, pid, mtu, reply)
  {
    ServeCases(net, s, h, userDisabled, max, at, sealed, pid, mtu);
    OtherDeviceIff(s.codes, h, at);
  }

  lemma OtherDeviceIff(codes: A.Codes, h: Hello, at: int)
    requires WellFormed(h) && h.code in codes
    ensures Rejected(codes, h, codes[h.code].fp) <==> OtherDevice(h, codes[h.code].fp)
  {
  }

  /** What one undisturbed handshake leaves behind, by the first check that fails. */
  lemma ServeCases(net: Net, s: State, h: Hello, userDisabled: bool, max: int, at: int, sealed: bool, pid: PeerId, mtu: int)
    requires s.worker.Idle? && WellFormed(h) && h.code in s.codes
    ensures var c, s' := s.codes[h.code], Serve(net, s, h, userDisabled, max, at, sealed, pid, mtu);
            var codes' := AfterRule(s.codes, h, c.fp, at);
            if !Passes(net, s, h, userDisabled) then s' == s
            else if Full(s, h, max) || !sealed then s' == s.(codes := codes')
            else s' == s.(codes := codes', ix := Upsert(s.ix, Peer(pid, h.code, c.user, c.tun.ip, h.from, mtu)))
  {
  }

  class Server {
    const net: Net
    const store: A.CodeStore
    const peers: Registry

    constructor (net: Net, store: A.CodeStore, peers: Registry)
      ensures this.net == net && this.store == store && this.peers == peers
    {
      this.net, this.store, this.peers := net, store, peers;
    }

    ghost function View(): State
      reads store, peers
    {
      State(store.codes, peers.ix, Idle, map[], map[])
    }

    method ApplyDeviceRules(h: Hello, stored: string, at: int) returns (refused: bool)
      modifies store
      ensures refused == Rejected(old(store.codes), h, stored)
      ensures store.codes == if refused then old(store.codes) else AfterRule(old(store.codes), h, stored, at)
    {
      refused := false;
      if stored == h.fp && h.fp2 != "" {
        var _, _ := store.MigrateAccessCodeDevice(h.code, h.fp, h.fp2, at);
      } else if stored != h.fp && (h.fp2 == "" || stored != h.fp2) {
        var bindFp := if h.fp2 != "" then h.fp2 else h.fp;
        var res := store.BindAccessCodeDevice(h.code, bindFp, at);
        refused := res.NotFound? || res.Mismatch?;
      }
    }

    method AtLimit(c: CodeId, u: UserId, max: int) returns (full: bool)
      ensures full == (max >= 0 && c !in peers.ix.byCode && (max == 0 || OnlineCount(peers.ix, u) >= max))
    {
      full := false;
      if max >= 0 && c !in peers.ix.byCode {
        var n := peers.CountByUser(u);
        assert OnlineCount(peers.ix, u) == |OnlineOf(peers.ix, u)|;
        full := max == 0 || n >= max;
      }
    }

    /** What follows authentication: the checks in their order, then the session. */
    method AnswerHello(h: Hello, userDisabled: bool, max: int, at: int, sealed: bool, pid: PeerId, mtu: int)
      returns (reply: Reply)
      requires peers.Valid() && WellFormed(h) && h.code in store.codes
      modifies store, peers
      ensures peers.Valid()
      ensures View() == Serve(net, old(View()), h, userDisabled, max, at, sealed, pid, mtu)
      ensures h.code in old(store.codes) && Answers(net, old(View()), h, userDisabled, max, sealed, reply)
    {
      ServeCases(net, View(), h, userDisabled, max, at, sealed, pid, mtu);
      var c := store.codes[h.code];
      if c.disabled {
        return Reject(CodeDisabled);
      }
      if userDisabled {
        return Reject(UserDisabled);
      }
      if !c.tun.At? || !Contains(net.pool, c.tun.ip.v) || c.tun.ip == net.gateway {
        return Reject(AddrInvalid);
      }
      var refused := ApplyDeviceRules(h, c.fp, at);
      if refused {
        return Reject(DeviceMismatch);
      }
      var full := AtLimit(h.code, c.user, max);
      if full {
        return Reject(TunnelLimit);
      }
      if !sealed {
        return Silent;
      }
      var prev := peers.Install(Peer(pid, h.code, c.user, c.tun.ip, h.from, mtu), at);
      reply := Accept(prev);
    }

    /** `handleHello` for one packet.  `authentic`: the MAC under the code's secret verifies. */
    method HandleHello(h: Hello, authentic: bool, userDisabled: bool, max: int, at: int, sealed: bool, pid: PeerId, mtu: int)
      returns (reply: Reply)
      requires peers.Valid() && WellFormed(h)
      modifies store, peers
      ensures peers.Valid()
      // nothing is answered and nothing changes before authentication
      ensures !authentic || h.code !in old(store.codes) ==> reply == Silent && View() == old(View())
      ensures authentic ==> View() == Serve(net, old(View()), h, userDisabled, max, at, sealed, pid, mtu)
      ensures authentic && h.code in old(store.codes) ==> Answers(net, old(View()), h, userDisabled, max, sealed, reply)
      ensures authentic && h.code in old(store.codes)
              ==> HelloAnswered(net, old(View()), h, userDisabled, max, sealed, reply)
                  && HelloStored(old(store.codes), h, reply, at, store.codes)
                  && HelloInstalled(old(View()), h, reply, pid, mtu, peers.ix)
    {
      if h.code !in store.codes || !authentic {
        return Silent;
      }
      ghost var s := View();
      reply := AnswerHello(h, userDisabled, max, at, sealed, pid, mtu);
      AnswersSay(net, s, h, userDisabled, max, at, sealed, pid, mtu, reply);
    }
  }
}
