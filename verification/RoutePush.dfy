/** Return-route replication (internal/tunnelapp/tunnelapp.go:1302-1396): every round sends a code's
    session the full list of source addresses, then the addresses that have ended since the last
    round.  Codes do not interact, so `Chan` is one code's share of the state; its steps interleave
    the push loop with handshakes, evictions and message loss. */
module RoutePush {
  import opened Prelude

  datatype Ip = Ip(v: int)
  type Ips = set<Ip>

  /** The push loop inside a round: `to` is the session taken from the snapshot, `got` says that the
      routes message reached that session's client. */
  datatype Push =
    | Rest
    | Armed(to: nat)
    | Sent(to: nat, cur: Ips, got: bool)
    | Ending(to: nat, cur: Ips, gone: Ips, got: bool)

  /** `session` counts handshakes; `client` is what the current session's client has installed;
      `prev` is the server's record of the last round. */
  datatype Chan = Chan(session: nat, client: Ips, prev: Option<Ips>, push: Push)

  const Start := Chan(0, {}, None, Rest)

  datatype Act =
    | Snapshot
    | SendRoutes(cur: Ips, arrives: bool)
    | Diff
    | SendEnded(arrives: bool)
    | Skip
    | Reconnect
    | Forget

  function Recorded(prev: Option<Ips>): Ips { if prev.Some? then prev.value else {} }

  predicate Enabled(ch: Chan, a: Act) {
    match a
    case Snapshot => ch.push.Rest?
    case SendRoutes(_, _) => ch.push.Armed?
    case Diff => ch.push.Sent?
    case SendEnded(_) => ch.push.Ending?
    // a failed send, or the session is not in the snapshot
    case Skip => ch.push.Armed?
    case _ => true
  }

  function Next(ch: Chan, a: Act): Chan
    requires Enabled(ch, a)
  {
    match a
    case Snapshot => ch.(push := Armed(ch.session))
    case SendRoutes(cur, arrives) =>
      var got := arrives && ch.push.to == ch.session;
      ch.(client := if got then ch.client + cur else ch.client, push := Sent(ch.push.to, cur, arrives))
    case Diff =>
      var gone := Recorded(ch.prev) - ch.push.cur;
      ch.(prev := Some(ch.push.cur),
          push := if gone == {} then Rest else Ending(ch.push.to, ch.push.cur, gone, ch.push.got))
    case SendEnded(arrives) =>
      ch.(client := if arrives && ch.push.to == ch.session then ch.client - ch.push.gone else ch.client, push := Rest)
    case Skip => ch.(push := Rest)
    case Reconnect => ch.(session := ch.session + 1, client := {})
    case Forget => ch.(prev := None)
  }

  /** Addresses the round under way still accounts for. */
  function InFlight(push: Push): Ips {
    match push
    case Sent(_, cur, _) => cur
    case Ending(_, _, gone, _) => gone
    case _ => {}
  }

  /** What every state has: a round addressed to an old session finds the new client without routes
      of its own, and a round that reached the current session left its list there. */
  ghost predicate Steady(ch: Chan) {
    match ch.push
    case Rest => true
    case Armed(to) => to <= ch.session && (to != ch.session ==> ch.client == {})
    case Sent(to, cur, got) =>
      && to <= ch.session
      && if to != ch.session then ch.client == {} else (got ==> cur <= ch.client)
    case Ending(to, cur, gone, got) =>
      && to <= ch.session && cur !! gone && (ch.prev == None || ch.prev == Some(cur))
      && if to != ch.session then ch.client == {} else (got ==> cur <= ch.client)
  }

  /** The server's books cover everything the client has installed. */
  ghost predicate Covered(ch: Chan) {
    Steady(ch) && ch.client <= Recorded(ch.prev) + InFlight(ch.push)
  }

  lemma StepSteady(ch: Chan, a: Act)
    requires Steady(ch) && Enabled(ch, a)
    ensures Steady(Next(ch, a))
  {
  }

  /** The steps at which coverage can end: a record is dropped, or an ended message is lost, while the
      client has an address that nothing else accounts for. */
  predicate Slip(ch: Chan, a: Act) {
    || (a.Forget? && !(ch.client <= InFlight(ch.push)))
    || (LosesEnded(ch, a) && !(ch.client <= Recorded(ch.prev)))
  }

  lemma StepCoveredIff(ch: Chan, a: Act)
    requires Covered(ch) && Enabled(ch, a)
    ensures Covered(Next(ch, a)) <==> !Slip(ch, a)
  {
    if a.Diff? {
      assert Recorded(ch.prev) <= ch.push.cur + (Recorded(ch.prev) - ch.push.cur);
    }
  }

  // ---------------------------------------------------------------- what a delivered round achieves

  /** The act ends a round whose list reached the current client; an empty list is not sent at all. */
  predicate Delivers(ch: Chan, a: Act)
    requires Enabled(ch, a)
  {
    (a.Diff? || a.SendEnded?) && Next(ch, a).push.Rest? && (ch.push.cur == {} || (ch.push.got && ch.push.to == ch.session))
  }

  /** A message of the round that ends is lost on the way to the current client. */
  predicate LosesEnded(ch: Chan, a: Act) {
    a.SendEnded? && !a.arrives && ch.push.Ending? && ch.push.to == ch.session
  }

  /** From a covered state a delivered round leaves the client with exactly the server's set. */
  lemma RoundConverges(ch: Chan, a: Act)
    requires Covered(ch) && Enabled(ch, a) && Delivers(ch, a) && !LosesEnded(ch, a)
    ensures Next(ch, a).client == ch.push.cur
  {
    var ch', cur := Next(ch, a), ch.push.cur;
    forall x | x in ch'.client ensures x in cur {
      if a.Diff? { assert x !in Recorded(ch.prev) - cur; }
    }
    forall x | x in cur ensures x in ch'.client { assert x in ch.client; }
  }

  // ---------------------------------------------------------------- runs

  ghost predicate Possible(ch: Chan, acts: seq<Act>)
    decreases |acts|, 0
  {
    acts == [] || (Possible(ch, acts[..|acts| - 1]) && Enabled(After(ch, acts[..|acts| - 1]), acts[|acts| - 1]))
  }

  ghost function After(ch: Chan, acts: seq<Act>): Chan
    requires Possible(ch, acts)
    decreases |acts|, 1
  {
    if acts == [] then ch else Next(After(ch, acts[..|acts| - 1]), acts[|acts| - 1])
  }

  lemma {:induction false} RunSteady(ch: Chan, acts: seq<Act>)
    requires Steady(ch) && Possible(ch, acts)
    ensures Steady(After(ch, acts))
    decreases |acts|
  {
    if acts != [] {
      RunSteady(ch, acts[..|acts| - 1]);
      StepSteady(After(ch, acts[..|acts| - 1]), acts[|acts| - 1]);
    }
  }

  /** The last act, if it ends a delivered round, leaves client and server agreeing. */
  ghost predicate Agrees(ch: Chan, acts: seq<Act>)
    requires Possible(ch, acts)
  {
    acts != [] ==>
      var was, a := After(ch, acts[..|acts| - 1]), acts[|acts| - 1];
      Delivers(was, a) ==> After(ch, acts).client == was.push.cur
  }

  // ---------------------------------------------------------------- a condition on the schedule

  /** A round whose routes reached the current session's client has been entered in the record. */
  ghost predicate Told(ch: Chan, acts: seq<Act>)
    requires Possible(ch, acts)
    decreases |acts|
  {
    acts != [] &&
    var was, a := After(ch, acts[..|acts| - 1]), acts[|acts| - 1];
    match a
    case Reconnect => false
    case Diff => Told(ch, acts[..|acts| - 1]) || (was.push.got && was.push.to == was.session)
    case _ => Told(ch, acts[..|acts| - 1])
  }

  /** No record is dropped after a round's routes reached the current session, and no ended message
      to the current session is lost. */
  ghost predicate Orderly(ch: Chan, acts: seq<Act>)
    requires Possible(ch, acts)
    decreases |acts|
  {
    acts == [] ||
    var init, a := acts[..|acts| - 1], acts[|acts| - 1];
    && Orderly(ch, init)
    && !(a.Forget? && Told(ch, init))
    && !LosesEnded(After(ch, init), a)
  }

  /** Before that the client has at most what the round under way named. */
  lemma {:induction false} UntoldIsEmpty(acts: seq<Act>)
    requires Possible(Start, acts) && !Told(Start, acts)
    ensures var ch := After(Start, acts);
            ch.client <= if ch.push.Sent? && ch.push.got && ch.push.to == ch.session then ch.push.cur else {}
    decreases |acts|
  {
    if acts != [] {
      var init, a := acts[..|acts| - 1], acts[|acts| - 1];
      RunSteady(Start, init);
      if !a.Reconnect? { UntoldIsEmpty(init); }
    }
  }

  lemma {:induction false} OrderlyCovered(acts: seq<Act>)
    requires Possible(Start, acts) && Orderly(Start, acts)
    ensures Covered(After(Start, acts))
    decreases |acts|
  {
    if acts != [] {
      var init, a := acts[..|acts| - 1], acts[|acts| - 1];
      OrderlyCovered(init);
      if a.Forget? { UntoldIsEmpty(init); }
      StepCoveredIff(After(Start, init), a);
    }
  }

  /** On every orderly schedule, whatever the lists and whichever routes messages are lost, each
      delivered round ends with client and server agreeing, across any number of reconnects. */
  lemma OrderlyRunsAgree(acts: seq<Act>)
    requires Possible(Start, acts) && Orderly(Start, acts)
    ensures Agrees(Start, acts)
  {
    if acts != [] {
      var init, a := acts[..|acts| - 1], acts[|acts| - 1];
      OrderlyCovered(init);
      if Delivers(After(Start, init), a) { RoundConverges(After(Start, init), a); }
    }
  }

  // ---------------------------------------------------------------- the exact condition

  ghost predicate AlwaysCovered(acts: seq<Act>)
    requires Possible(Start, acts)
    decreases |acts|
  {
    Covered(After(Start, acts)) && (acts == [] || AlwaysCovered(acts[..|acts| - 1]))
  }

  ghost predicate NeverSlips(acts: seq<Act>)
    requires Possible(Start, acts)
    decreases |acts|
  {
    acts == [] || (NeverSlips(acts[..|acts| - 1]) && !Slip(After(Start, acts[..|acts| - 1]), acts[|acts| - 1]))
  }

  lemma {:induction false} CoveredIffNoSlip(acts: seq<Act>)
    requires Possible(Start, acts)
    ensures AlwaysCovered(acts) <==> NeverSlips(acts)
    decreases |acts|
  {
    if acts != [] {
      var init := acts[..|acts| - 1];
      CoveredIffNoSlip(init);
      if AlwaysCovered(init) {
        StepCoveredIff(After(Start, init), acts[|acts| - 1]);
      }
    }
  }

  /** No record is dropped and no ended message lost from here on. */
  ghost predicate Faultless(ch: Chan, rest: seq<Act>)
    requires Possible(ch, rest)
    decreases |rest|
  {
    rest == [] ||
    var init, a := rest[..|rest| - 1], rest[|rest| - 1];
    Faultless(ch, init) && !a.Forget? && !LosesEnded(After(ch, init), a)
  }

  /** However the run goes on without further faults, every delivered round agrees. */
  ghost predicate Converges(ch: Chan) {
    forall rest | Possible(ch, rest) && Faultless(ch, rest) :: Agrees(ch, rest)
  }

  lemma {:induction false} FaultlessCovered(ch: Chan, rest: seq<Act>)
    requires Covered(ch) && Possible(ch, rest) && Faultless(ch, rest)
    ensures Covered(After(ch, rest))
    decreases |rest|
  {
    if rest != [] {
      var init := rest[..|rest| - 1];
      FaultlessCovered(ch, init);
      StepCoveredIff(After(ch, init), rest[|rest| - 1]);
    }
  }

  /** `x` is installed at the client and in none of the server's books. */
  predicate Leaked(ch: Chan, x: Ip) {
    x in ch.client && x !in Recorded(ch.prev) && x !in InFlight(ch.push)
  }

  predicate Names(a: Act, x: Ip) { a.SendRoutes? && x in a.cur }

  lemma StepKeepsLeak(ch: Chan, a: Act, x: Ip)
    requires Leaked(ch, x) && Enabled(ch, a) && !a.Reconnect? && !Names(a, x)
    ensures Leaked(Next(ch, a), x)
  {
  }

  lemma Extend(ch: Chan, acts: seq<Act>, a: Act)
    requires Possible(ch, acts) && Enabled(After(ch, acts), a)
    ensures Possible(ch, acts + [a]) && After(ch, acts + [a]) == Next(After(ch, acts), a)
    ensures Faultless(ch, acts) && !a.Forget? && !LosesEnded(After(ch, acts), a) ==> Faultless(ch, acts + [a])
  {
    assert (acts + [a])[..|acts|] == acts;
  }

  /** The round under way can be brought to its end without a fault, and the leak is still there. */
  lemma FinishRound(ch: Chan, x: Ip) returns (rest: seq<Act>)
    requires Steady(ch) && Leaked(ch, x)
    ensures Possible(ch, rest) && Faultless(ch, rest)
    ensures var end := After(ch, rest); end.push.Rest? && Leaked(end, x) && end.session == ch.session
  {
    rest := [];
    if ch.push.Armed? {
      Extend(ch, rest, Skip);
      StepKeepsLeak(ch, Skip, x);
      rest := rest + [Skip];
    } else if !ch.push.Rest? {
      if ch.push.Sent? {
        Extend(ch, rest, Diff);
        StepKeepsLeak(ch, Diff, x);
        rest := rest + [Diff];
      }
      var mid := After(ch, rest);
      if mid.push.Ending? {
        Extend(ch, rest, SendEnded(true));
        StepKeepsLeak(mid, SendEnded(true), x);
        rest := rest + [SendEnded(true)];
      }
    }
  }

  /** From any state with a leak there is a faultless continuation whose last act ends a delivered
      round in disagreement. */
  lemma LeakShows(ch: Chan, x: Ip) returns (rest: seq<Act>)
    requires Steady(ch) && Leaked(ch, x)
    ensures Possible(ch, rest) && Faultless(ch, rest) && !Agrees(ch, rest)
  {
    rest := FinishRound(ch, x);
    var at := After(ch, rest);
    Extend(ch, rest, Snapshot);
    rest := rest + [Snapshot];
    var armed := Next(at, Snapshot);
    StepKeepsLeak(at, Snapshot, x);
    Extend(ch, rest, SendRoutes({}, true));
    rest := rest + [SendRoutes({}, true)];
    var sent := Next(armed, SendRoutes({}, true));
    StepKeepsLeak(armed, SendRoutes({}, true), x);
    Extend(ch, rest, Diff);
    var diffed := Next(sent, Diff);
    StepKeepsLeak(sent, Diff, x);
    assert (rest + [Diff])[..|rest|] == rest;
    if diffed.push.Rest? {
      rest := rest + [Diff];
      return;
    }
    rest := rest + [Diff];
    Extend(ch, rest, SendEnded(true));
    StepKeepsLeak(diffed, SendEnded(true), x);
    assert (rest + [SendEnded(true)])[..|rest|] == rest;
    rest := rest + [SendEnded(true)];
  }

  /** Coverage is exactly what convergence needs: a reachable state is covered if and only if every
      delivered round of every faultless continuation ends in agreement. */
  lemma CoveredIffConverges(ch: Chan)
    requires Steady(ch)
    ensures Covered(ch) <==> Converges(ch)
  {
    if Covered(ch) {
      forall rest | Possible(ch, rest) && Faultless(ch, rest) ensures Agrees(ch, rest) {
        if rest != [] {
          var init, a := rest[..|rest| - 1], rest[|rest| - 1];
          FaultlessCovered(ch, init);
          if Delivers(After(ch, init), a) { RoundConverges(After(ch, init), a); }
        }
      }
    } else {
      var x :| x in ch.client && x !in Recorded(ch.prev) + InFlight(ch.push);
      var rest := LeakShows(ch, x);
      assert !Agrees(ch, rest);
    }
  }

  ghost predicate AlwaysConverges(acts: seq<Act>)
    requires Possible(Start, acts)
    decreases |acts|
  {
    Converges(After(Start, acts)) && (acts == [] || AlwaysConverges(acts[..|acts| - 1]))
  }

  /** Over every run of rounds, losses, reconnects and dropped records: delivered rounds keep ending
      in agreement, now and in every faultless future of every moment, if and only if no record is
      dropped and no ended message lost while the client has an address nothing else accounts for. */
  lemma {:induction false} ConvergesIffNoSlip(acts: seq<Act>)
    requires Possible(Start, acts)
    ensures AlwaysConverges(acts) <==> NeverSlips(acts)
    decreases |acts|
  {
    CoveredIffNoSlip(acts);
    ConvergesIffCovered(acts);
  }

  lemma {:induction false} ConvergesIffCovered(acts: seq<Act>)
    requires Possible(Start, acts)
    ensures AlwaysConverges(acts) <==> AlwaysCovered(acts)
    decreases |acts|
  {
    RunSteady(Start, acts);
    CoveredIffConverges(After(Start, acts));
    if acts != [] { ConvergesIffCovered(acts[..|acts| - 1]); }
  }

  // ---------------------------------------------------------------- what a leak costs

  /** The run keeps the session and no round lists `x` again. */
  ghost predicate Unlisted(rest: seq<Act>, x: Ip) {
    forall i | 0 <= i < |rest| :: !rest[i].Reconnect? && !Names(rest[i], x)
  }

  /** The round under way lists `x`. */
  predicate UnderWay(push: Push, x: Ip) { (push.Sent? || push.Ending?) && x in push.cur }

  /** A leaked address stays installed for good: until the client reconnects or the address is listed
      again, no continuation removes it, and every delivered round ends in disagreement. */
  lemma {:induction false} LeakStays(ch: Chan, rest: seq<Act>, x: Ip)
    requires Leaked(ch, x) && !UnderWay(ch.push, x) && Possible(ch, rest) && Unlisted(rest, x)
    ensures Leaked(After(ch, rest), x) && !UnderWay(After(ch, rest).push, x)
    ensures rest != [] && Delivers(After(ch, rest[..|rest| - 1]), rest[|rest| - 1]) ==> !Agrees(ch, rest)
    decreases |rest|
  {
    if rest != [] {
      var init, a := rest[..|rest| - 1], rest[|rest| - 1];
      LeakStays(ch, init, x);
      StepKeepsLeak(After(ch, init), a, x);
    }
  }

  /** `forgetPushed` runs after the new session was installed; when a whole round fits in between,
      the address that round installed is leaked from the very start of the session. */
  lemma LateForgetLeaks(x: Ip)
    ensures var acts := [Reconnect, Snapshot, SendRoutes({x}, true), Diff, Forget];
            Possible(Start, acts) && Leaked(After(Start, acts), x)
  {
    var r1, r2 := [Reconnect], [Reconnect, Snapshot];
    Extend(Start, [], Reconnect);
    assert [] + [Reconnect] == r1;
    Extend(Start, r1, Snapshot);
    assert r1 + [Snapshot] == r2;
    var r3 := r2 + [SendRoutes({x}, true)];
    Extend(Start, r2, SendRoutes({x}, true));
    var r4 := r3 + [Diff];
    Extend(Start, r3, Diff);
    Extend(Start, r4, Forget);
    assert r4 + [Forget] == [Reconnect, Snapshot, SendRoutes({x}, true), Diff, Forget];
  }

  // ---------------------------------------------------------------- the server's record

  /** `pushPrev` and its lock.  A sorted list is represented by its multiset: that is what comparing
      two sorted lists compares. */
  class PushRecord {
    var prev: map<CodeId, multiset<Ip>>

    constructor ()
      ensures prev == map[]
    {
      prev := map[];
    }

    ghost function Of(c: CodeId): Option<Ips>
      reads this
    {
      if c in prev then Some(Elements(prev[c])) else None
    }

    /** `diffPushed`: one code's record is replaced, exactly what left the list is reported, and only
        a real difference counts as a change. */
    method DiffPushed(c: CodeId, ips: seq<Ip>) returns (gone: Ips, changed: bool)
      modifies this
      ensures gone == Recorded(old(Of(c))) - Elements(multiset(ips))
      ensures Of(c) == Some(Elements(multiset(ips))) && prev == old(prev)[c := multiset(ips)]
      ensures changed == if c in old(prev) then old(prev)[c] != multiset(ips) else ips != []
    {
      var cur := multiset(ips);
      var seen := c in prev;
      ghost var was := Of(c);
      var last := if seen then prev[c] else multiset{};
      prev := prev[c := cur];
      if !seen {
        return {}, |ips| > 0;
      }
      if last == cur {
        return {}, false;
      }
      gone := {};
      var todo := last;
      while todo != multiset{}
        invariant todo <= last
        invariant forall x :: x in gone <==> x in last && x !in todo && x !in cur
        decreases |todo|
      {
        var x :| x in todo;
        if x !in cur {
          gone := gone + {x};
        }
        todo := todo[x := 0];
      }
      changed := true;
    }

    method ForgetPushed(c: CodeId)
      modifies this
      ensures prev == old(prev) - {c} && Of(c) == None
    {
      prev := prev - {c};
    }
  }

  ghost function Elements(m: multiset<Ip>): Ips {
    set x | x in m
  }
}
