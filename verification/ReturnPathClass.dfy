/** The guard as the sequence of commands it issues on the host's tables. */
module ReturnPathGuard {
  import opened Prelude
  import opened ReturnPath

  class Host {
    var sys: seq<string>
    var mangle: seq<PreRule>
    var rules: seq<IpRule>
    var localRoute: bool
    var input: seq<InRule>
    var forward: seq<FwRule>

    ghost function View(): Kernel
      reads this
    {
      Kernel(sys, mangle, rules, localRoute, input, forward)
    }

    constructor (k: Kernel)
      ensures View() == k
    {
      sys, mangle, rules, localRoute, input, forward := k.sys, k.mangle, k.rules, k.localRoute, k.input, k.forward;
    }

    /** `lockInputOnInterfaceWith`: three deletions whose failures are ignored, two insertions at the
        head whose failures are not. */
    method LockInput(o: Oracle) returns (ok: bool)
      modifies this`input
      ensures View() == LockStage(old(View()), o).k && ok == LockStage(old(View()), o).ok
      ensures ok ==> input == Locked(old(input), o)
    {
      ClearInput(o);
      if !o.dropInsert {
        return false;
      }
      input := [DropAll] + input;
      if !o.estInsert {
        return false;
      }
      input := [Established] + input;
      assert input == [Established, DropAll] + Cleared(old(input), o);
      return true;
    }

    /** The three deletions, whose failures are ignored. */
    method ClearInput(o: Oracle)
      modifies this`input
      ensures input == Cleared(old(input), o)
    {
      if o.estDel { input := Without(input, Established); }
      if o.dropDel { input := Without(input, DropAll); }
      if o.acceptDel { input := Without(input, AcceptAll); }
    }

    method FixSysctls(o: Oracle) returns (repaired: bool, ok: bool)
      requires Wf(View(), o)
      modifies this`sys
      ensures Out(View(), repaired, ok) == SysctlFrom(old(View()), o, 0)
    {
      repaired, ok := false, true;
      var i := 0;
      while i < 4
        invariant i <= 4 && |sys| == 4 && ok
        invariant SysctlFrom(old(View()), o, 0) == var rest := SysctlFrom(View(), o, i); rest.(repaired := repaired || rest.repaired)
      {
        if !(o.sysRead[i] && sys[i] == EXPECT[i]) {
          if !o.sysctl[i] {
            ok := false;
            return;
          }
          sys := sys[i := EXPECT[i]];
          repaired := true;
        }
        i := i + 1;
      }
    }

    /** `ip rule show` and the text search in its output. */
    method FindLookup() returns (found: bool)
      ensures found == AnyLooksOurs(rules)
    {
      found := false;
      var i := 0;
      while i < |rules|
        invariant i <= |rules| && found == AnyLooksOurs(rules[..i])
      {
        assert rules[..i + 1] == rules[..i] + [rules[i]];
        ghost var before := rules[..i];
        if OUR_RULE.table <= rules[i].table {
          found := true;
          assert LooksOurs(rules[..i + 1][i]);
        } else if found {
          ghost var j :| 0 <= j < i && LooksOurs(before[j]);
          assert LooksOurs(rules[..i + 1][j]);
        }
        i := i + 1;
      }
      assert rules[..i] == rules;
    }

    method FixRouting(o: Oracle) returns (repaired: bool, ok: bool)
      modifies this`mangle, this`rules, this`localRoute
      ensures var b := MarkStage(old(View()), o);
              var c := Then(b, RuleStage(b.k, o));
              Out(View(), repaired, ok) == Then(c, RouteStage(c.k, o))
    {
      repaired := false;
      if !(Mark in mangle && o.markCheck) {
        if !o.markAdd {
          return false, false;
        }
        mangle := mangle + [Mark];
        repaired := true;
      }
      if !o.ruleShow {
        return repaired, false;
      }
      var found := FindLookup();
      if !found {
        if !o.ruleAdd {
          return repaired, false;
        }
        rules := rules + [OUR_RULE];
        repaired := true;
      }
      if !(localRoute && o.routeShow) {
        if !o.routeSet {
          return repaired, false;
        }
        localRoute := true;
        repaired := true;
      }
      return repaired, true;
    }

    method FixForwards(o: Oracle) returns (repaired: bool, ok: bool)
      requires Wf(View(), o)
      modifies this`forward
      ensures Out(View(), repaired, ok) == ForwardFrom(old(View()), o, 0)
    {
      repaired, ok := false, true;
      var i := 0;
      while i < 3
        invariant i <= 3 && ok
        invariant ForwardFrom(old(View()), o, 0) == var rest := ForwardFrom(View(), o, i); rest.(repaired := repaired || rest.repaired)
      {
        var spec := FORWARDS[i];
        if !(spec in forward && o.fwCheck[i]) {
          if !o.fwAdd[i] {
            ok := false;
            return;
          }
          forward := if i == 0 then [spec] + forward else forward + [spec];
          repaired := true;
        }
        i := i + 1;
      }
    }

    method FixUpToRouting(o: Oracle) returns (repaired: bool, ok: bool)
      requires Wf(View(), o)
      modifies this
      ensures Out(View(), repaired, ok) == Upto4(old(View()), o)
    {
      ghost var k0 := View();
      repaired, ok := FixSysctls(o);
      if !ok {
        return;
      }
      var r, fine := FixRouting(o);
      RoutingIs(k0, o);
      return repaired || r, fine;
    }

    method FixInput(o: Oracle) returns (repaired: bool, ok: bool)
      modifies this`input
      ensures Out(View(), repaired, ok) == InputStage(old(View()), o)
    {
      if LockFound(input, o) {
        return false, true;
      }
      ok := LockInput(o);
      repaired := ok;
    }

    /** `verifyReturnPathWith`: checks in order, repairs what is missing, stops at the first command
        that fails. */
    method VerifyReturnPath(o: Oracle) returns (repaired: bool, ok: bool)
      requires Wf(View(), o)
      modifies this
      ensures Out(View(), repaired, ok) == Verify(old(View()), o)
      ensures ok ==> Healthy(View())
      ensures ok <==> Succeeds(old(View()), o)
      ensures ok ==> (repaired <==> !AllFound(old(View()), o))
    {
      VerifyReports(View(), o);
      ghost var k0 := View();
      repaired, ok := FixUpToRouting(o);
      if !ok {
        return;
      }
      var r;
      r, ok := FixInput(o);
      repaired := repaired || r;
      assert Out(View(), repaired, ok) == Upto5(k0, o);
      if !ok {
        return;
      }
      r, ok := FixForwards(o);
      repaired := repaired || r;
      if ok { SuccessIsHealthy(k0, o); }
    }
  }

  lemma RoutingIs(k: Kernel, o: Oracle)
    requires Wf(k, o) && Upto1(k, o).ok
    ensures var a := Upto1(k, o);
            var b := MarkStage(a.k, o);
            var c := Then(b, RuleStage(b.k, o));
            Upto4(k, o) == Then(a, Then(c, RouteStage(c.k, o)))
  {
  }
}
