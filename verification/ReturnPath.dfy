/** Installing and repairing the kernel's return path (internal/tunnelapp/returnpath.go:56-170,
    internal/tunnelapp/setup_linux.go:46-164).  iptables chains are sequences of rules, first match
    first; every command may fail, as the oracle says, and a command that fails changes nothing. */
module ReturnPath {
  import opened Prelude

  datatype PreRule = Mark | PreOther(n: nat)
  datatype InRule = Established | DropAll | AcceptAll | InOther(n: nat)
  datatype FwRule = Hairpin | ForwardIn | ForwardOut | FwOther(n: nat)
  /** A policy rule: the mark it matches, and the table it looks up, both as printed. */
  datatype IpRule = IpRule(mark: string, table: string)

  const OUR_RULE := IpRule("0x7947", "7947")
  /** ip_forward, and rp_filter of all, default and the tunnel interface. */
  const EXPECT := ["1", "2", "2", "2"]

  datatype Kernel = Kernel(sys: seq<string>, mangle: seq<PreRule>, rules: seq<IpRule>, localRoute: bool, input: seq<InRule>, forward: seq<FwRule>)

  /** Which commands work.  A check that fails reads as "rule missing", a read that fails as a wrong
      value; failing deletions are ignored. */
  datatype Oracle = Oracle(
    sysRead: seq<bool>, sysctl: seq<bool>, markCheck: bool, markAdd: bool, ruleShow: bool, ruleAdd: bool,
    routeShow: bool, routeSet: bool, estCheck: bool, dropCheck: bool, estDel: bool, dropDel: bool, acceptDel: bool,
    dropInsert: bool, estInsert: bool, fwCheck: seq<bool>, fwAdd: seq<bool>)

  predicate Wf(k: Kernel, o: Oracle) {
    |k.sys| == 4 && |o.sysRead| == 4 && |o.sysctl| == 4 && |o.fwCheck| == 3 && |o.fwAdd| == 3
  }

  /** Result of a command sequence: state, whether something was repaired, whether no error came. */
  datatype Out = Out(k: Kernel, repaired: bool, ok: bool)

  // ---------------------------------------------------------------- the stages of a verify

  function SysctlFrom(k: Kernel, o: Oracle, i: nat): Out
    requires Wf(k, o) && i <= 4
    decreases 4 - i
  {
    if i == 4 then Out(k, false, true)
    else if k.sys[i] == EXPECT[i] && o.sysRead[i] then SysctlFrom(k, o, i + 1)
    else if !o.sysctl[i] then Out(k, false, false)
    else SysctlFrom(k.(sys := k.sys[i := EXPECT[i]]), o, i + 1).(repaired := true)
  }

  function MarkStage(k: Kernel, o: Oracle): Out {
    if Mark in k.mangle && o.markCheck then Out(k, false, true)
    else if !o.markAdd then Out(k, false, false)
    else Out(k.(mangle := k.mangle + [Mark]), true, true)
  }

  /** The text test `Contains(out, "lookup 7947")` on one printed rule. */
  predicate LooksOurs(r: IpRule) { OUR_RULE.table <= r.table }

  predicate AnyLooksOurs(rs: seq<IpRule>) { exists i :: 0 <= i < |rs| && LooksOurs(rs[i]) }

  function RuleStage(k: Kernel, o: Oracle): Out {
    if !o.ruleShow then Out(k, false, false)
    else if AnyLooksOurs(k.rules) then Out(k, false, true)
    else if !o.ruleAdd then Out(k, false, false)
    else Out(k.(rules := k.rules + [OUR_RULE]), true, true)
  }

  function RouteStage(k: Kernel, o: Oracle): Out {
    if k.localRoute && o.routeShow then Out(k, false, true)
    else if !o.routeSet then Out(k, false, false)
    else Out(k.(localRoute := true), true, true)
  }

  /** `iptables -D`: one copy goes, unless the command fails. */
  function Delete(c: seq<InRule>, x: InRule, works: bool): seq<InRule> {
    if works then Without(c, x) else c
  }

  /** `lockInputOnInterfaceWith`: try to take out one copy of each, then insert DROP and, above it,
      ESTABLISHED. */
  function Cleared(c: seq<InRule>, o: Oracle): seq<InRule> {
    Delete(Delete(Delete(c, Established, o.estDel), DropAll, o.dropDel), AcceptAll, o.acceptDel)
  }

  function Locked(c: seq<InRule>, o: Oracle): seq<InRule> { [Established, DropAll] + Cleared(c, o) }

  function LockStage(k: Kernel, o: Oracle): Out {
    if !o.dropInsert then Out(k.(input := Cleared(k.input, o)), false, false)
    else if !o.estInsert then Out(k.(input := [DropAll] + Cleared(k.input, o)), false, false)
    else Out(k.(input := Locked(k.input, o)), true, true)
  }

  /** Both rules are found. */
  predicate LockFound(c: seq<InRule>, o: Oracle) {
    Established in c && o.estCheck && DropAll in c && o.dropCheck
  }

  function InputStage(k: Kernel, o: Oracle): Out {
    if LockFound(k.input, o) then Out(k, false, true) else LockStage(k, o)
  }

  const FORWARDS := [Hairpin, ForwardIn, ForwardOut]

  /** Insert at the head for the hairpin rule, append for the accepts. */
  function AddForward(c: seq<FwRule>, r: FwRule): seq<FwRule> {
    if r.Hairpin? then [r] + c else c + [r]
  }

  function ForwardFrom(k: Kernel, o: Oracle, i: nat): Out
    requires Wf(k, o) && i <= 3
    decreases 3 - i
  {
    if i == 3 then Out(k, false, true)
    else if FORWARDS[i] in k.forward && o.fwCheck[i] then ForwardFrom(k, o, i + 1)
    else if !o.fwAdd[i] then Out(k, false, false)
    else ForwardFrom(k.(forward := AddForward(k.forward, FORWARDS[i])), o, i + 1).(repaired := true)
  }

  /** Run `next` unless an error came before it. */
  function Then(a: Out, next: Out): Out {
    if !a.ok then a else next.(repaired := a.repaired || next.repaired)
  }

  lemma SysctlOnlySys(k: Kernel, o: Oracle, i: nat)
    requires Wf(k, o) && i <= 4
    ensures SysctlFrom(k, o, i).k == k.(sys := SysctlFrom(k, o, i).k.sys) && |SysctlFrom(k, o, i).k.sys| == 4
    ensures SysctlFrom(k, o, i).ok && k.sys[..i] == EXPECT[..i] ==> SysctlFrom(k, o, i).k.sys == EXPECT
    ensures k.sys[..i] == EXPECT[..i] && SysctlFrom(k, o, i).ok && !SysctlFrom(k, o, i).repaired ==> SysctlFrom(k, o, i).k == k
    decreases 4 - i
  {
    if i < 4 {
      var k' := if k.sys[i] == EXPECT[i] && o.sysRead[i] then k else k.(sys := k.sys[i := EXPECT[i]]);
      SysctlOnlySys(k', o, i + 1);
      if k.sys[..i] == EXPECT[..i] {
        PrefixGrows(k.sys, k'.sys, i);
      }
    }
  }

  lemma PrefixGrows(was: seq<string>, now: seq<string>, i: nat)
    requires |was| == 4 && i < 4 && was[..i] == EXPECT[..i]
    requires now == was[i := EXPECT[i]]
    ensures now[..i + 1] == EXPECT[..i + 1]
  {
    assert now[..i + 1] == was[..i] + [EXPECT[i]] && EXPECT[..i + 1] == EXPECT[..i] + [EXPECT[i]];
  }

  /** The stages one after the other, each only if no error came before it. */
  function Upto1(k: Kernel, o: Oracle): (r: Out)
    requires Wf(k, o)
    ensures Wf(r.k, o)
  {
    SysctlOnlySys(k, o, 0);
    SysctlFrom(k, o, 0)
  }

  function Upto2(k: Kernel, o: Oracle): (r: Out)
    requires Wf(k, o)
    ensures Wf(r.k, o)
  {
    var a := Upto1(k, o);
    Then(a, MarkStage(a.k, o))
  }

  function Upto3(k: Kernel, o: Oracle): (r: Out)
    requires Wf(k, o)
    ensures Wf(r.k, o)
  {
    var a := Upto2(k, o);
    Then(a, RuleStage(a.k, o))
  }

  function Upto4(k: Kernel, o: Oracle): (r: Out)
    requires Wf(k, o)
    ensures Wf(r.k, o)
  {
    var a := Upto3(k, o);
    Then(a, RouteStage(a.k, o))
  }

  function Upto5(k: Kernel, o: Oracle): (r: Out)
    requires Wf(k, o)
    ensures Wf(r.k, o)
  {
    var a := Upto4(k, o);
    Then(a, InputStage(a.k, o))
  }

  /** `verifyReturnPathWith`. */
  function Verify(k: Kernel, o: Oracle): Out
    requires Wf(k, o)
  {
    var a := Upto5(k, o);
    Then(a, ForwardFrom(a.k, o, 0))
  }

  // ---------------------------------------------------------------- convergence

  /** Everything a verify looks for is there. */
  predicate Healthy(k: Kernel) {
    && k.sys == EXPECT && Mark in k.mangle && AnyLooksOurs(k.rules) && k.localRoute
    && Established in k.input && DropAll in k.input
    && Hairpin in k.forward && ForwardIn in k.forward && ForwardOut in k.forward
  }

  predicate ChecksWork(o: Oracle) {
    && o.markCheck && o.ruleShow && o.routeShow && o.estCheck && o.dropCheck
    && (forall i | 0 <= i < |o.sysRead| :: o.sysRead[i])
    && forall i | 0 <= i < |o.fwCheck| :: o.fwCheck[i]
  }

  lemma ForwardRepairs(k: Kernel, o: Oracle, i: nat)
    requires Wf(k, o) && i <= 3
    ensures var r := ForwardFrom(k, o, i);
            && r.k == k.(forward := r.k.forward)
            && (forall x | x in k.forward :: x in r.k.forward)
            && (r.ok ==> forall j | i <= j < 3 :: FORWARDS[j] in r.k.forward)
    decreases 3 - i
  {
    if i < 3 {
      var missing := !(FORWARDS[i] in k.forward && o.fwCheck[i]);
      ForwardRepairs(if missing then k.(forward := AddForward(k.forward, FORWARDS[i])) else k, o, i + 1);
    }
  }

  lemma AfterRules(k: Kernel, o: Oracle)
    requires Wf(k, o)
    ensures var c := Upto3(k, o);
            && c.k.input == k.input && c.k.forward == k.forward && c.k.localRoute == k.localRoute
            && (c.ok ==> c.k.sys == EXPECT && Mark in c.k.mangle && AnyLooksOurs(c.k.rules)
                         && c.k.rules == if AnyLooksOurs(k.rules) then k.rules else k.rules + [OUR_RULE])
  {
    SysctlOnlySys(k, o, 0);
    var b := Upto2(k, o);
    assert b.ok ==> Mark in b.k.mangle && b.k.sys == EXPECT;
    if b.ok && o.ruleShow && !AnyLooksOurs(b.k.rules) && o.ruleAdd {
      assert LooksOurs((b.k.rules + [OUR_RULE])[|b.k.rules|]);
    }
  }

  lemma AfterInput(k: Kernel, o: Oracle)
    requires Wf(k, o)
    ensures var e := Upto5(k, o);
            && e.k.forward == k.forward && e.k.rules == Upto3(k, o).k.rules
            && e.k.input == (if Upto4(k, o).ok then InputStage(k, o).k.input else k.input)
            && (e.ok ==> e.k.sys == EXPECT && Mark in e.k.mangle && AnyLooksOurs(e.k.rules) && e.k.localRoute
                         && Established in e.k.input && DropAll in e.k.input)
  {
    AfterRules(k, o);
    var d := Upto4(k, o);
    assert d.k.input == k.input;
    assert Locked(k.input, o)[0] == Established && Locked(k.input, o)[1] == DropAll;
  }

  /** From any kernel state, whatever failed on the way: a verify that returns no error has put
      everything in place. */
  lemma SuccessIsHealthy(k: Kernel, o: Oracle)
    requires Wf(k, o) && Verify(k, o).ok
    ensures Healthy(Verify(k, o).k)
  {
    AfterInput(k, o);
    var e := Upto5(k, o);
    ForwardRepairs(e.k, o, 0);
    var r := ForwardFrom(e.k, o, 0);
    assert FORWARDS[0] in r.k.forward && FORWARDS[1] in r.k.forward && FORWARDS[2] in r.k.forward;
  }

  /** In a healthy state a verify whose checks work repairs nothing and changes nothing. */
  lemma HealthyIsFixpoint(k: Kernel, o: Oracle)
    requires Wf(k, o) && Healthy(k) && ChecksWork(o)
    ensures Verify(k, o) == Out(k, false, true)
  {
    SysctlStays(k, o, 0);
    ForwardStays(k, o, 0);
  }

  lemma SysctlStays(k: Kernel, o: Oracle, i: nat)
    requires Wf(k, o) && k.sys == EXPECT && i <= 4 && forall j | 0 <= j < 4 :: o.sysRead[j]
    ensures SysctlFrom(k, o, i) == Out(k, false, true)
    decreases 4 - i
  {
    if i < 4 { SysctlStays(k, o, i + 1); }
  }

  lemma ForwardStays(k: Kernel, o: Oracle, i: nat)
    requires Wf(k, o) && Healthy(k) && (forall j | 0 <= j < 3 :: o.fwCheck[j]) && i <= 3
    ensures ForwardFrom(k, o, i) == Out(k, false, true)
    decreases 3 - i
  {
    if i < 3 { ForwardStays(k, o, i + 1); }
  }

  /** So a successful verify makes the next one a no-op. */
  lemma VerifyConverges(k: Kernel, o: Oracle, o2: Oracle)
    requires Wf(k, o) && Verify(k, o).ok && Wf(Verify(k, o).k, o2) && ChecksWork(o2)
    ensures Verify(Verify(k, o).k, o2) == Out(Verify(k, o).k, false, true)
  {
    SuccessIsHealthy(k, o);
    HealthyIsFixpoint(Verify(k, o).k, o2);
  }

  /** "Everything" has one exception: the policy rule is recognised by the table's text alone.  After
      a successful verify the program's own rule exists exactly if it did before or no rule
      merely looked like it. */
  lemma OurRuleIff(k: Kernel, o: Oracle)
    requires Wf(k, o) && Verify(k, o).ok
    ensures OUR_RULE in Verify(k, o).k.rules <==> OUR_RULE in k.rules || !AnyLooksOurs(k.rules)
  {
    AfterRules(k, o);
    AfterInput(k, o);
    ForwardRepairs(Upto5(k, o).k, o, 0);
    if !AnyLooksOurs(k.rules) { assert (k.rules + [OUR_RULE])[|k.rules|] == OUR_RULE; }
  }

  // ---------------------------------------------------------------- what a verify reports

  /** What the checks find, item by item: in place and seen to be. */
  predicate SysctlFound(k: Kernel, o: Oracle, i: nat) { i < |k.sys| && i < |o.sysRead| && i < 4 && o.sysRead[i] && k.sys[i] == ["1", "2", "2", "2"][i] }

  predicate MarkFound(k: Kernel, o: Oracle) { Mark in k.mangle && o.markCheck }

  predicate RouteFound(k: Kernel, o: Oracle) { k.localRoute && o.routeShow }

  predicate ForwardFound(k: Kernel, o: Oracle, i: nat) {
    i < |o.fwCheck| && i < 3 && o.fwCheck[i] && [Hairpin, ForwardIn, ForwardOut][i] in k.forward
  }

  /** Some printed rule contains the table's text. */
  predicate TextSeen(k: Kernel) { exists i :: 0 <= i < |k.rules| && "7947" <= k.rules[i].table }

  /** Each item is found, or the commands that repair it work. */
  predicate Succeeds(k: Kernel, o: Oracle)
    requires Wf(k, o)
  {
    && SysctlsWork(k, o)
    && (MarkFound(k, o) || o.markAdd)
    && o.ruleShow && (TextSeen(k) || o.ruleAdd)
    && (RouteFound(k, o) || o.routeSet)
    && ((Established in k.input && o.estCheck && DropAll in k.input && o.dropCheck) || (o.dropInsert && o.estInsert))
    && (forall i: nat | i < 3 :: ForwardFound(k, o, i) || o.fwAdd[i])
  }

  predicate AllFound(k: Kernel, o: Oracle)
    requires Wf(k, o)
  {
    && SysctlsFound(k, o) && MarkFound(k, o) && TextSeen(k) && RouteFound(k, o)
    && Established in k.input && o.estCheck && DropAll in k.input && o.dropCheck
    && (forall i: nat | i < 3 :: ForwardFound(k, o, i))
  }

  lemma SysctlReports(k: Kernel, o: Oracle, i: nat)
    requires Wf(k, o) && i <= 4
    ensures var r := SysctlFrom(k, o, i);
            && (r.ok <==> forall j: nat | i <= j < 4 :: SysctlFound(k, o, j) || o.sysctl[j])
            && (r.ok ==> (r.repaired <==> !forall j: nat | i <= j < 4 :: SysctlFound(k, o, j)))
    decreases 4 - i
  {
    if i < 4 {
      var k' := if SysctlFound(k, o, i) then k else k.(sys := k.sys[i := EXPECT[i]]);
      assert forall j: nat | i < j < 4 :: SysctlFound(k', o, j) == SysctlFound(k, o, j);
      SysctlReports(k', o, i + 1);
    }
  }

  lemma ForwardReports(k: Kernel, o: Oracle, i: nat)
    requires Wf(k, o) && i <= 3
    ensures var r := ForwardFrom(k, o, i);
            && (r.ok <==> forall j: nat | i <= j < 3 :: ForwardFound(k, o, j) || o.fwAdd[j])
            && (r.ok ==> (r.repaired <==> !forall j: nat | i <= j < 3 :: ForwardFound(k, o, j)))
    decreases 3 - i
  {
    if i < 3 {
      var k' := if ForwardFound(k, o, i) then k else k.(forward := AddForward(k.forward, FORWARDS[i]));
      assert forall j: nat | i < j < 3 :: ForwardFound(k', o, j) == ForwardFound(k, o, j);
      ForwardReports(k', o, i + 1);
    }
  }

  predicate SysctlsWork(k: Kernel, o: Oracle)
    requires Wf(k, o)
  {
    forall i: nat | i < 4 :: SysctlFound(k, o, i) || o.sysctl[i]
  }

  predicate SysctlsFound(k: Kernel, o: Oracle) { forall i: nat | i < 4 :: SysctlFound(k, o, i) }

  /** What the first two stages leave and report. */
  lemma MarkReports(k: Kernel, o: Oracle)
    requires Wf(k, o)
    ensures var b := Upto2(k, o);
            && b.k == k.(sys := b.k.sys, mangle := b.k.mangle)
            && (b.ok <==> SysctlsWork(k, o) && (MarkFound(k, o) || o.markAdd))
            && (b.ok ==> (b.repaired <==> !(SysctlsFound(k, o) && MarkFound(k, o))))
  {
    SysctlOnlySys(k, o, 0);
    SysctlReports(k, o, 0);
  }

  /** What the four stages before the chains leave and report. */
  lemma RoutingReports(k: Kernel, o: Oracle)
    requires Wf(k, o)
    ensures var d := Upto4(k, o);
            && d.k.input == k.input && d.k.forward == k.forward
            && (d.ok <==> SysctlsWork(k, o) && (MarkFound(k, o) || o.markAdd)
                          && o.ruleShow && (TextSeen(k) || o.ruleAdd) && (RouteFound(k, o) || o.routeSet))
            && (d.ok ==> (d.repaired <==> !(SysctlsFound(k, o) && MarkFound(k, o) && TextSeen(k) && RouteFound(k, o))))
  {
    MarkReports(k, o);
    RulesReport(Upto2(k, o), o);
    assert TextSeen(Upto2(k, o).k) == TextSeen(k);
  }

  lemma RulesReport(b: Out, o: Oracle)
    ensures var c := Then(b, RuleStage(b.k, o));
            var d := Then(c, RouteStage(c.k, o));
            && d.k.input == b.k.input && d.k.forward == b.k.forward
            && (d.ok <==> b.ok && o.ruleShow && (TextSeen(b.k) || o.ruleAdd) && (RouteFound(b.k, o) || o.routeSet))
            && (d.ok ==> (d.repaired <==> b.repaired || !TextSeen(b.k) || !RouteFound(b.k, o)))
  {
    assert AnyLooksOurs(b.k.rules) == TextSeen(b.k);
  }

  /** A verify ends without error exactly if every item is found or its repair works, and then reports a
      repair exactly if some item was not found. */
  lemma VerifyReports(k: Kernel, o: Oracle)
    requires Wf(k, o)
    ensures Verify(k, o).ok <==> Succeeds(k, o)
    ensures Verify(k, o).ok ==> (Verify(k, o).repaired <==> !AllFound(k, o))
  {
    RoutingReports(k, o);
    var e := Upto5(k, o);
    if e.ok {
      assert e.k.forward == k.forward;
      ForwardReports(e.k, o, 0);
      assert forall j: nat | j < 3 :: ForwardFound(e.k, o, j) == ForwardFound(k, o, j);
    }
  }

  /** And what it leaves alone: what it does not find missing, and what it did not put there. */
  lemma VerifyKeeps(k: Kernel, o: Oracle)
    requires Wf(k, o) && Verify(k, o).ok
    ensures var k' := Verify(k, o).k;
            && k'.sys == ["1", "2", "2", "2"] && k'.localRoute
            && k'.mangle == (if MarkFound(k, o) then k.mangle else k.mangle + [Mark])
            && k'.rules == (if TextSeen(k) then k.rules else k.rules + [IpRule("0x7947", "7947")])
            && (Established in k.input && o.estCheck && DropAll in k.input && o.dropCheck ==> k'.input == k.input)
            && (forall x | x in k.forward :: x in k'.forward)
            && (forall x | x in k'.forward && x !in k.forward :: x == Hairpin || x == ForwardIn || x == ForwardOut)
  {
    AfterRules(k, o);
    AfterInput(k, o);
    SysctlOnlySys(k, o, 0);
    ForwardRepairs(Upto5(k, o).k, o, 0);
    ForwardAdds(Upto5(k, o).k, o, 0);
    assert AnyLooksOurs(k.rules) == TextSeen(k);
  }

  lemma ForwardAdds(k: Kernel, o: Oracle, i: nat)
    requires Wf(k, o) && i <= 3
    ensures forall x | x in ForwardFrom(k, o, i).k.forward && x !in k.forward :: x == Hairpin || x == ForwardIn || x == ForwardOut
    decreases 3 - i
  {
    if i < 3 {
      var missing := !(FORWARDS[i] in k.forward && o.fwCheck[i]);
      ForwardAdds(if missing then k.(forward := AddForward(k.forward, FORWARDS[i])) else k, o, i + 1);
    }
  }

  // ---------------------------------------------------------------- order

  ghost predicate InputOrdered(c: seq<InRule>) {
    && (forall i, j | 0 <= i < j < |c| :: !(c[i] == DropAll && c[j] == Established))
    && (forall i, j | 0 <= i < j < |c| :: !(c[i] == Established && c[j] == Established))
  }

  ghost predicate ForwardOrdered(c: seq<FwRule>) {
    forall i, j | 0 <= i < j < |c| :: !((c[i] == ForwardIn || c[i] == ForwardOut) && c[j] == Hairpin)
  }

  /** At most one ESTABLISHED rule. */
  ghost predicate SingleEst(c: seq<InRule>) {
    forall i, j | 0 <= i < j < |c| :: !(c[i] == Established && c[j] == Established)
  }

  lemma OrderedTail(c: seq<InRule>)
    requires InputOrdered(c) && c != []
    ensures InputOrdered(c[1..]) && (c[0] == DropAll || c[0] == Established ==> Established !in c[1..])
  {
    var d := c[1..];
    forall i, j | 0 <= i < j < |d| ensures !((d[i] == DropAll || d[i] == Established) && d[j] == Established) {
      assert d[i] == c[i + 1] && d[j] == c[j + 1];
    }
    forall j | 0 <= j < |d| ensures c[0] == DropAll || c[0] == Established ==> d[j] != Established {
      assert d[j] == c[j + 1];
    }
  }

  lemma OrderedCons(x: InRule, d: seq<InRule>)
    requires InputOrdered(d) && (x == DropAll || x == Established ==> Established !in d)
    ensures InputOrdered([x] + d)
  {
    var c := [x] + d;
    forall i, j | 0 <= i < j < |c| ensures !((c[i] == DropAll || c[i] == Established) && c[j] == Established) {
      assert c[j] == d[j - 1] && c[j] in d;
      if i > 0 { assert c[i] == d[i - 1]; }
    }
  }

  lemma {:induction false} WithoutOrdered(c: seq<InRule>, x: InRule)
    requires InputOrdered(c)
    ensures InputOrdered(Without(c, x))
    decreases |c|
  {
    if c != [] {
      OrderedTail(c);
      if c[0] != x {
        WithoutOrdered(c[1..], x);
        OrderedCons(c[0], Without(c[1..], x));
      }
    }
  }

  lemma ClearedOrdered(c: seq<InRule>, o: Oracle)
    requires InputOrdered(c)
    ensures InputOrdered(Cleared(c, o))
  {
    WithoutOrdered(c, Established);
    var d := Delete(c, Established, o.estDel);
    WithoutOrdered(d, DropAll);
    WithoutOrdered(Delete(d, DropAll, o.dropDel), AcceptAll);
  }

  /** With DROP put on top, with or without ESTABLISHED above it, the order is right exactly if no
      other ESTABLISHED rule is left below. */
  lemma OnTopOrderedIff(d: seq<InRule>)
    ensures InputOrdered([DropAll] + d) <==> Established !in d
    ensures InputOrdered([Established, DropAll] + d) <==> Established !in d
  {
    assert [Established, DropAll] + d == [Established] + ([DropAll] + d);
    if Established !in d {
      OrderedCons(DropAll, d);
      OrderedCons(Established, [DropAll] + d);
    } else {
      if InputOrdered([DropAll] + d) { OrderedTail([DropAll] + d); }
      if InputOrdered([Established, DropAll] + d) { OrderedTail([Established, DropAll] + d); OrderedTail([DropAll] + d); }
    }
  }

  /** What the deletions leave of ESTABLISHED: a second copy, or the only one if its deletion fails. */
  lemma SurvivesIff(c: seq<InRule>, o: Oracle)
    ensures Established in Cleared(c, o) <==> if o.estDel then !SingleEst(c) else Established in c
  {
    var d := Delete(c, Established, o.estDel);
    var e := Delete(d, DropAll, o.dropDel);
    assert Established in d <==> Established in e;
    assert Established in e <==> Established in Cleared(c, o);
    if o.estDel { SecondStaysIff(c); }
  }

  lemma {:induction false} SecondStaysIff(c: seq<InRule>)
    ensures Established in Without(c, Established) <==> !SingleEst(c)
    decreases |c|
  {
    if c != [] {
      var d := c[1..];
      if c[0] == Established {
        if Established in d {
          var j :| 0 <= j < |d| && d[j] == Established;
          assert c[0] == Established && c[j + 1] == Established;
        } else {
          assert forall i | 1 <= i < |c| :: c[i] == d[i - 1] && c[i] in d;
        }
      } else {
        SecondStaysIff(d);
        if SingleEst(d) {
          assert forall i | 1 <= i < |c| :: c[i] == d[i - 1];
        } else {
          var i, j :| 0 <= i < j < |d| && d[i] == Established && d[j] == Established;
          assert c[i + 1] == Established && c[j + 1] == Established;
        }
      }
    }
  }

  /** Locking with its insertions working yields the right order exactly from a chain with at most one
      ESTABLISHED rule when the deletion of that rule works, and with none when it fails. */
  lemma LockOrderedIff(c: seq<InRule>, o: Oracle)
    ensures InputOrdered(Locked(c, o)) <==> if o.estDel then SingleEst(c) else Established !in c
  {
    OnTopOrderedIff(Cleared(c, o));
    SurvivesIff(c, o);
  }

  // ---------------------------------------------------------------- setup

  function SetSysctls(k: Kernel, o: Oracle): Out
    requires Wf(k, o)
  {
    if !o.sysctl[0] then Out(k, false, false)
    else Out(k.(sys := seq(4, i requires 0 <= i < 4 => if i == 0 || o.sysctl[i] then EXPECT[i] else k.sys[i])), true, true)
  }

  /** `ensureIPRule`: a listing that fails is taken for an empty one. */
  function SetRule(k: Kernel, o: Oracle): Out {
    if o.ruleShow && AnyLooksOurs(k.rules) then Out(k, false, true)
    else if !o.ruleAdd then Out(k, false, false)
    else Out(k.(rules := k.rules + [OUR_RULE]), true, true)
  }

  function SetRoute(k: Kernel, o: Oracle): Out {
    if !o.routeSet then Out(k, false, false) else Out(k.(localRoute := true), true, true)
  }

  function SetupUpto3(k: Kernel, o: Oracle): (r: Out)
    requires Wf(k, o)
    ensures Wf(r.k, o) && r.k.input == k.input && r.k.forward == k.forward
  {
    var a := SetSysctls(k, o);
    var b := Then(a, MarkStage(a.k, o));
    Then(b, SetRule(b.k, o))
  }

  function SetupUpto4(k: Kernel, o: Oracle): (r: Out)
    requires Wf(k, o)
    ensures Wf(r.k, o) && r.k.input == k.input && r.k.forward == k.forward
  {
    var a := SetupUpto3(k, o);
    Then(a, SetRoute(a.k, o))
  }

  function SetupUpto5(k: Kernel, o: Oracle): (r: Out)
    requires Wf(k, o)
    ensures Wf(r.k, o) && r.k.forward == k.forward
  {
    var a := SetupUpto4(k, o);
    Then(a, LockStage(a.k, o))
  }

  /** `setupReturnPath`: unlike a verify it always locks INPUT anew, and it ignores failing rp_filter
      writes. */
  function Setup(k: Kernel, o: Oracle): Out
    requires Wf(k, o)
  {
    var a := SetupUpto5(k, o);
    Then(a, ForwardFrom(a.k, o, 0))
  }

  /** A setup ends without error exactly if all its commands work, the rp_filter writes and what it finds in
      place already excepted. */
  lemma SetupReports(k: Kernel, o: Oracle)
    requires Wf(k, o)
    ensures Setup(k, o).ok <==>
            && o.sysctl[0] && (MarkFound(k, o) || o.markAdd) && ((o.ruleShow && TextSeen(k)) || o.ruleAdd) && o.routeSet
            && o.dropInsert && o.estInsert && (forall i: nat | i < 3 :: ForwardFound(k, o, i) || o.fwAdd[i])
  {
    var e := SetupUpto5(k, o);
    ForwardReports(e.k, o, 0);
    assert forall j: nat | j < 3 :: ForwardFound(e.k, o, j) == ForwardFound(k, o, j);
    assert AnyLooksOurs(k.rules) == TextSeen(k);
  }

  /** A setup without error establishes the order exactly on kernels with no hairpin rule behind an
      accept and no ESTABLISHED rule that outlives its deletion. */
  lemma SetupOrderedIff(k: Kernel, o: Oracle)
    requires Wf(k, o) && Setup(k, o).ok
    ensures Ordered(Setup(k, o).k) <==>
            ForwardOrdered(k.forward) && if o.estDel then SingleEst(k.input) else Established !in k.input
  {
    var e := SetupUpto5(k, o);
    LockOrderedIff(k.input, o);
    ForwardRepairs(e.k, o, 0);
    ForwardOrderedIff(e.k, o, 0);
  }

  lemma AddForwardIff(c: seq<FwRule>, r: FwRule)
    requires r == Hairpin || r == ForwardIn || r == ForwardOut
    ensures ForwardOrdered(AddForward(c, r)) <==> ForwardOrdered(c)
  {
    var d := AddForward(c, r);
    if r == Hairpin {
      assert forall i | 0 <= i < |c| :: d[i + 1] == c[i];
      assert forall i | 1 <= i < |d| :: d[i] == c[i - 1];
    } else {
      assert forall i | 0 <= i < |c| :: d[i] == c[i];
    }
  }

  /** The FORWARD repairs neither break nor mend the order. */
  lemma ForwardOrderedIff(k: Kernel, o: Oracle, i: nat)
    requires Wf(k, o) && i <= 3
    ensures ForwardOrdered(ForwardFrom(k, o, i).k.forward) <==> ForwardOrdered(k.forward)
    decreases 3 - i
  {
    if i < 3 {
      AddForwardIff(k.forward, FORWARDS[i]);
      var c := AddForward(k.forward, FORWARDS[i]);
      ForwardOrderedIff(if FORWARDS[i] in k.forward && o.fwCheck[i] then k else k.(forward := c), o, i + 1);
    }
  }

  // ---------------------------------------------------------------- runs

  /** The program verifies or sets up anew; tools outside it flush, remove any rule, insert a rule that is
      not one of ours. */
  datatype Act =
    | RunVerify(o: Oracle)
    | RunSetup(o: Oracle)
    | RemoveInput(at: nat)
    | RemoveForward(at: nat)
    | InsertInput(at: nat, n: nat)
    | InsertForward(at: nat, n: nat)
    | Flush

  function RemoveAt<T>(c: seq<T>, i: nat): seq<T> { if i < |c| then c[..i] + c[i + 1..] else c }

  function InsertAt<T>(c: seq<T>, i: nat, x: T): seq<T> { if i <= |c| then c[..i] + [x] + c[i..] else c }

  predicate Enabled(k: Kernel, a: Act) {
    |k.sys| == 4 && (a.RunVerify? || a.RunSetup? ==> Wf(k, a.o))
  }

  function Next(k: Kernel, a: Act): Kernel
    requires Enabled(k, a)
  {
    match a
    case RunVerify(o) => Verify(k, o).k
    case RunSetup(o) => Setup(k, o).k
    case RemoveInput(i) => k.(input := RemoveAt(k.input, i))
    case RemoveForward(i) => k.(forward := RemoveAt(k.forward, i))
    case InsertInput(i, n) => k.(input := InsertAt(k.input, i, InOther(n)))
    case InsertForward(i, n) => k.(forward := InsertAt(k.forward, i, FwOther(n)))
    case Flush => k.(mangle := [], input := [], forward := [])
  }

  ghost predicate Ordered(k: Kernel) {
    |k.sys| == 4 && InputOrdered(k.input) && ForwardOrdered(k.forward)
  }

  lemma RemoveKeepsInput(c: seq<InRule>, i: nat)
    requires InputOrdered(c)
    ensures InputOrdered(RemoveAt(c, i))
  {
    if i < |c| {
      var d := RemoveAt(c, i);
      assert forall j | 0 <= j < |d| :: d[j] == c[if j < i then j else j + 1];
    }
  }

  lemma RemoveKeepsForward(c: seq<FwRule>, i: nat)
    requires ForwardOrdered(c)
    ensures ForwardOrdered(RemoveAt(c, i))
  {
    if i < |c| {
      var d := RemoveAt(c, i);
      forall a, b | 0 <= a < b < |d| ensures !((d[a] == ForwardIn || d[a] == ForwardOut) && d[b] == Hairpin) {
        var a', b' := if a < i then a else a + 1, if b < i then b else b + 1;
        assert d[a] == c[a'] && d[b] == c[b'];
      }
    }
  }

  lemma InsertKeepsInput(c: seq<InRule>, i: nat, n: nat)
    requires InputOrdered(c)
    ensures InputOrdered(InsertAt(c, i, InOther(n)))
  {
    if i <= |c| {
      var d := InsertAt(c, i, InOther(n));
      assert forall j | 0 <= j < |d| && j != i :: d[j] == c[if j < i then j else j - 1];
    }
  }

  lemma InsertKeepsForward(c: seq<FwRule>, i: nat, n: nat)
    requires ForwardOrdered(c)
    ensures ForwardOrdered(InsertAt(c, i, FwOther(n)))
  {
    if i <= |c| {
      var d := InsertAt(c, i, FwOther(n));
      forall a, b | 0 <= a < b < |d| ensures !((d[a] == ForwardIn || d[a] == ForwardOut) && d[b] == Hairpin) {
        if a != i && b != i {
          var a', b' := if a < i then a else a - 1, if b < i then b else b - 1;
          assert d[a] == c[a'] && d[b] == c[b'];
        }
      }
    }
  }

  /** The step locks INPUT and puts DROP on top although the deletion of an ESTABLISHED rule that
      stands in the chain has failed. */
  predicate Breaks(k: Kernel, a: Act)
    requires Enabled(k, a)
  {
    && (match a
        case RunVerify(o) => Upto4(k, o).ok && !LockFound(k.input, o)
        case RunSetup(o) => SetupUpto4(k, o).ok
        case _ => false)
    && Established in k.input && !a.o.estDel && a.o.dropInsert
  }

  lemma LockStageIff(k: Kernel, o: Oracle)
    requires InputOrdered(k.input)
    ensures InputOrdered(LockStage(k, o).k.input) <==> !(Established in k.input && !o.estDel && o.dropInsert)
  {
    ClearedOrdered(k.input, o);
    OnTopOrderedIff(Cleared(k.input, o));
    SurvivesIff(k.input, o);
  }

  /** Even a verify or setup that stops half way at a failing command keeps the order, with that one
      exception. */
  lemma VerifyOrderIff(k: Kernel, o: Oracle)
    requires Wf(k, o) && Ordered(k)
    ensures Ordered(Verify(k, o).k) <==> !Breaks(k, RunVerify(o))
  {
    AfterInput(k, o);
    LockStageIff(k, o);
    var e := Upto5(k, o);
    ForwardOrderedIff(e.k, o, 0);
    ForwardRepairs(e.k, o, 0);
  }

  lemma SetupKeepsIff(k: Kernel, o: Oracle)
    requires Wf(k, o) && Ordered(k)
    ensures Ordered(Setup(k, o).k) <==> !Breaks(k, RunSetup(o))
  {
    LockStageIff(SetupUpto4(k, o).k, o);
    var e := SetupUpto5(k, o);
    ForwardOrderedIff(e.k, o, 0);
    ForwardRepairs(e.k, o, 0);
  }

  lemma StepOrderIff(k: Kernel, a: Act)
    requires Ordered(k) && Enabled(k, a)
    ensures Ordered(Next(k, a)) <==> !Breaks(k, a)
  {
    match a
    case RunVerify(o) => VerifyOrderIff(k, o);
    case RunSetup(o) => SetupKeepsIff(k, o);
    case RemoveInput(i) => RemoveKeepsInput(k.input, i);
    case RemoveForward(i) => RemoveKeepsForward(k.forward, i);
    case InsertInput(i, n) => InsertKeepsInput(k.input, i, n);
    case InsertForward(i, n) => InsertKeepsForward(k.forward, i, n);
    case Flush =>
  }

  ghost predicate Run(ks: seq<Kernel>, acts: seq<Act>) {
    |ks| == |acts| + 1 && forall i | 0 <= i < |acts| :: Step(ks[i], acts[i], ks[i + 1])
  }

  ghost predicate Step(k: Kernel, a: Act, k': Kernel) { Enabled(k, a) && k' == Next(k, a) }

  ghost predicate BreaksAt(ks: seq<Kernel>, acts: seq<Act>, n: nat)
    requires |ks| == |acts| + 1
  {
    n < |acts| && Enabled(ks[n], acts[n]) && Breaks(ks[n], acts[n])
  }

  lemma {:induction false} OrderedUntil(ks: seq<Kernel>, acts: seq<Act>, n: nat)
    requires Run(ks, acts) && Ordered(ks[0]) && n <= |acts|
    requires forall m: nat | m < n :: !BreaksAt(ks, acts, m)
    ensures Ordered(ks[n])
    decreases n
  {
    if n > 0 {
      OrderedUntil(ks, acts, n - 1);
      StepAtIff(ks, acts, n - 1);
    }
  }

  lemma StepAtIff(ks: seq<Kernel>, acts: seq<Act>, n: nat)
    requires Run(ks, acts) && n < |acts| && Ordered(ks[n])
    ensures Ordered(ks[n + 1]) <==> !BreaksAt(ks, acts, n)
  {
    assert Step(ks[n], acts[n], ks[n + 1]);
    StepOrderIff(ks[n], acts[n]);
  }

  /** Whatever is removed, flushed or inserted by others, and however often the guard repairs or sets
      up, with whatever commands failing: ESTABLISHED stays before every DROP and the hairpin DROP
      before the accepts at every moment, if and only if DROP is never put on top of an ESTABLISHED
      rule whose deletion has failed. */
  lemma RunOrderIff(ks: seq<Kernel>, acts: seq<Act>)
    requires Run(ks, acts) && Ordered(ks[0])
    ensures (forall n: nat | n <= |acts| :: Ordered(ks[n])) <==> (forall n: nat | n < |acts| :: !BreaksAt(ks, acts, n))
  {
    if forall n: nat | n < |acts| :: !BreaksAt(ks, acts, n) {
      forall n: nat | n <= |acts| ensures Ordered(ks[n]) { OrderedUntil(ks, acts, n); }
    }
    if forall n: nat | n <= |acts| :: Ordered(ks[n]) {
      forall n: nat | n < |acts| ensures !BreaksAt(ks, acts, n) {
        assert Ordered(ks[n]) && Ordered(ks[n + 1]);
        StepAtIff(ks, acts, n);
      }
    }
  }

  /** A setup without error whose rp_filter writes worked leaves nothing for the guard to repair. */
  lemma SetupHealthy(k: Kernel, o: Oracle)
    requires Wf(k, o) && Setup(k, o).ok && forall i | 0 <= i < 4 :: o.sysctl[i]
    ensures Healthy(Setup(k, o).k)
  {
    var e := SetupUpto5(k, o);
    SetupParts(k, o);
    ForwardRepairs(e.k, o, 0);
    var r := ForwardFrom(e.k, o, 0);
    assert FORWARDS[0] in r.k.forward && FORWARDS[1] in r.k.forward && FORWARDS[2] in r.k.forward;
  }

  lemma SetupParts(k: Kernel, o: Oracle)
    requires Wf(k, o) && SetupUpto5(k, o).ok
    ensures var e := SetupUpto5(k, o);
            && Mark in e.k.mangle && AnyLooksOurs(e.k.rules) && e.k.localRoute
            && e.k.input == Locked(k.input, o) && Established in e.k.input && DropAll in e.k.input
            && ((forall i | 0 <= i < 4 :: o.sysctl[i]) ==> e.k.sys == EXPECT)
  {
    assert Locked(k.input, o)[0] == Established && Locked(k.input, o)[1] == DropAll;
    if !AnyLooksOurs(k.rules) || !o.ruleShow { assert LooksOurs((k.rules + [OUR_RULE])[|k.rules|]); }
    if Mark !in k.mangle || !o.markCheck { assert (k.mangle + [Mark])[|k.mangle|] == Mark; }
  }

  /** The condition is needed: with a second ESTABLISHED rule left over, losing the first one leaves
      DROP in front, and the guard takes the chain for intact. */
  lemma LeftoverHidesLoss(k: Kernel, o: Oracle, o2: Oracle)
    requires Wf(k, o) && Setup(k, o).ok && (forall i | 0 <= i < 4 :: o.sysctl[i]) && !SingleEst(k.input)
    requires Wf(Setup(k, o).k, o2) && ChecksWork(o2)
    ensures var lost := Setup(k, o).k.(input := RemoveAt(Setup(k, o).k.input, 0));
            lost.input != [] && lost.input[0] == DropAll && Verify(lost, o2) == Out(lost, false, true)
  {
    var after := Setup(k, o).k;
    SetupHealthy(k, o);
    SetupParts(k, o);
    ForwardRepairs(SetupUpto5(k, o).k, o, 0);
    SurvivesIff(k.input, o);
    if !o.estDel { var i, j :| 0 <= i < j < |k.input| && k.input[i] == Established && k.input[j] == Established; }
    DropInFront(Cleared(k.input, o));
    HealthyIsFixpoint(after.(input := RemoveAt(after.input, 0)), o2);
  }

  const ALL_WORK := Oracle([true, true, true, true], [true, true, true, true], true, true, true, true, true, true,
                           true, true, true, true, true, true, true, [true, true, true], [true, true, true])
  /** The filter table is locked by another program for a moment: the check of the ESTABLISHED rule
      and its deletion fail. */
  const EST_BUSY := ALL_WORK.(estCheck := false, estDel := false)

  /** A failing deletion leads there by itself: from a healthy, freshly locked chain, one such repair,
      the loss of the first rule, and a verify that works throughout and repairs nothing; now DROP
      decides packets of established connections. */
  lemma FailedDeletionHidesLoss(k: Kernel)
    requires |k.sys| == 4 && Healthy(k) && k.input == [Established, DropAll]
    ensures Breaks(k, RunVerify(EST_BUSY))
    ensures var lost := Next(Next(k, RunVerify(EST_BUSY)), RemoveInput(0));
            && |lost.sys| == 4 && Verify(lost, ALL_WORK) == Out(lost, false, true)
            && Decide(lost.input, true, {}, {}) == Drop
  {
    BusyRepair(k);
    BusyBreaks(k);
    LossUnseen(k.(input := [Established, DropAll, Established]));
  }

  lemma BusyBreaks(k: Kernel)
    requires |k.sys| == 4 && Healthy(k) && k.input == [Established, DropAll]
    ensures Breaks(k, RunVerify(EST_BUSY))
  {
    HealthyUpto4(k, EST_BUSY);
  }

  lemma LossUnseen(k: Kernel)
    requires |k.sys| == 4 && Healthy(k) && k.input == [Established, DropAll, Established]
    ensures var lost := Next(k, RemoveInput(0));
            && |lost.sys| == 4 && Verify(lost, ALL_WORK) == Out(lost, false, true)
            && Decide(lost.input, true, {}, {}) == Drop
  {
    var lost := k.(input := [DropAll, Established]);
    assert RemoveAt(k.input, 0) == lost.input;
    HealthyIsFixpoint(lost, ALL_WORK);
  }

  lemma BusyRepair(k: Kernel)
    requires |k.sys| == 4 && Healthy(k) && k.input == [Established, DropAll]
    ensures Next(k, RunVerify(EST_BUSY)) == k.(input := [Established, DropAll, Established])
  {
    var o, c := EST_BUSY, [Established, DropAll];
    HealthyUpto4(k, o);
    assert c[1..] == [DropAll] && c[1..][1..] == [];
    assert Without(c, DropAll) == [Established] by { assert Without(c[1..], DropAll) == []; }
    assert Without([Established], AcceptAll) == [Established];
    assert Upto5(k, o).k == k.(input := [Established, DropAll, Established]);
    ForwardStays(Upto5(k, o).k, o, 0);
  }

  lemma HealthyUpto4(k: Kernel, o: Oracle)
    requires Wf(k, o) && Healthy(k) && o.markCheck && o.ruleShow && o.routeShow && forall i | 0 <= i < 4 :: o.sysRead[i]
    ensures Upto4(k, o) == Out(k, false, true)
  {
    SysctlStays(k, o, 0);
  }

  lemma DropInFront(c: seq<InRule>)
    requires Established in c
    ensures var left := RemoveAt([Established, DropAll] + c, 0);
            left != [] && left[0] == DropAll && DropAll in left && Established in left
  {
    var left := RemoveAt([Established, DropAll] + c, 0);
    assert left == [DropAll] + c;
    var j :| 0 <= j < |c| && c[j] == Established;
    assert left[j + 1] == Established;
  }

  // ---------------------------------------------------------------- what the guarded chain decides

  datatype Verdict = Accept | Drop | Policy

  /** First match on a packet arriving on the tunnel interface; `accepts` and `drops` are what the
      rules of others do with it. */
  function Decide(c: seq<InRule>, established: bool, accepts: set<InRule>, drops: set<InRule>): Verdict {
    if c == [] then Policy
    else if c[0].Established? && established then Accept
    else if c[0].DropAll? then Drop
    else if c[0].AcceptAll? then Accept
    else if c[0].InOther? && c[0] in accepts then Accept
    else if c[0].InOther? && c[0] in drops then Drop
    else Decide(c[1..], established, accepts, drops)
  }

  predicate Matches(r: InRule, established: bool, accepts: set<InRule>, drops: set<InRule>) {
    match r
    case Established => established
    case DropAll => true
    case AcceptAll => true
    case InOther(_) => r in accepts || r in drops
  }

  /** The first rule that matches decides, and if none does, the policy. */
  lemma {:induction false} FirstMatchDecides(c: seq<InRule>, established: bool, accepts: set<InRule>, drops: set<InRule>)
    ensures Decide(c, established, accepts, drops) == Policy <==> forall i | 0 <= i < |c| :: !Matches(c[i], established, accepts, drops)
    ensures forall i | 0 <= i < |c| && Matches(c[i], established, accepts, drops)
                       && (forall j | 0 <= j < i :: !Matches(c[j], established, accepts, drops)) ::
              Decide(c, established, accepts, drops) == if c[i] == DropAll || (c[i].InOther? && c[i] !in accepts) then Drop else Accept
    decreases |c|
  {
    if c != [] {
      var rest := c[1..];
      FirstMatchDecides(rest, established, accepts, drops);
      assert forall i | 1 <= i < |c| :: c[i] == rest[i - 1];
      assert forall i | 0 <= i < |rest| :: rest[i] == c[i + 1];
    }
  }

  /** No rule of others that stands in the chain matches the packet. */
  ghost predicate Untouched(c: seq<InRule>, accepts: set<InRule>, drops: set<InRule>) {
    forall i | 0 <= i < |c| :: c[i] !in accepts && c[i] !in drops
  }

  lemma {:induction false} DropDecides(c: seq<InRule>, accepts: set<InRule>, drops: set<InRule>)
    requires DropAll in c && AcceptAll !in c && Untouched(c, accepts, drops)
    ensures Decide(c, false, accepts, drops) == Drop
    decreases |c|
  {
    if c[0] != DropAll {
      assert c[0] in c;
      DropDecides(c[1..], accepts, drops);
    }
  }

  lemma {:induction false} EstablishedDecides(c: seq<InRule>, accepts: set<InRule>, drops: set<InRule>)
    requires InputOrdered(c) && Established in c && Untouched(c, accepts, drops)
    ensures Decide(c, true, accepts, drops) == Accept
    decreases |c|
  {
    if c[0] != Established && c[0] != AcceptAll {
      var j :| 0 <= j < |c| && c[j] == Established;
      assert c[0] != DropAll && c[1..][j - 1] == Established;
      EstablishedDecides(c[1..], accepts, drops);
    }
  }

  lemma StepKeepsNoAccept(k: Kernel, a: Act)
    requires Enabled(k, a) && AcceptAll !in k.input
    ensures AcceptAll !in Next(k, a).input
  {
    match a
    case RunVerify(o) => AfterInput(k, o); ForwardRepairs(Upto5(k, o).k, o, 0);
    case RunSetup(o) => ForwardRepairs(SetupUpto5(k, o).k, o, 0);
    case _ =>
  }

  lemma {:induction false} RunKeepsNoAccept(ks: seq<Kernel>, acts: seq<Act>, n: nat)
    requires Run(ks, acts) && AcceptAll !in ks[0].input && n <= |acts|
    ensures AcceptAll !in ks[n].input
    decreases n
  {
    if n > 0 {
      RunKeepsNoAccept(ks, acts, n - 1);
      assert Step(ks[n - 1], acts[n - 1], ks[n]);
      StepKeepsNoAccept(ks[n - 1], acts[n - 1]);
    }
  }

  /** What the order is for.  In any such run, right after a setup or a verify without error, a packet
      from the tunnel that no rule of others matches is accepted exactly if it belongs to an
      established connection, wherever those other rules were inserted. */
  lemma GuardedInputDecides(ks: seq<Kernel>, acts: seq<Act>, n: nat, established: bool, accepts: set<InRule>, drops: set<InRule>)
    requires Run(ks, acts) && Ordered(ks[0]) && AcceptAll !in ks[0].input && n < |acts|
    requires forall m: nat | m <= n :: !BreaksAt(ks, acts, m)
    requires || (acts[n].RunSetup? && Wf(ks[n], acts[n].o) && Setup(ks[n], acts[n].o).ok)
             || (acts[n].RunVerify? && Wf(ks[n], acts[n].o) && Verify(ks[n], acts[n].o).ok)
    requires Untouched(ks[n + 1].input, accepts, drops)
    ensures Decide(ks[n + 1].input, established, accepts, drops) == if established then Accept else Drop
  {
    OrderedUntil(ks, acts, n + 1);
    RunKeepsNoAccept(ks, acts, n + 1);
    assert Step(ks[n], acts[n], ks[n + 1]);
    if acts[n].RunSetup? {
      SetupParts(ks[n], acts[n].o);
      ForwardRepairs(SetupUpto5(ks[n], acts[n].o).k, acts[n].o, 0);
    } else {
      SuccessIsHealthy(ks[n], acts[n].o);
    }
    if established {
      EstablishedDecides(ks[n + 1].input, accepts, drops);
    } else {
      DropDecides(ks[n + 1].input, accepts, drops);
    }
  }
}
