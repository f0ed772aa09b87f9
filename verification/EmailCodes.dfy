/** Issuing and consuming e-mailed codes (internal/email/email.go:195-323).  Entries are objects:
    `entries[i]` is the `i`-th code ever issued, `codes` the live ones by purpose and address.  Times
    are seconds; addresses and submitted codes are already trimmed and lower-cased. */
module EmailCodes {
  import opened Prelude

  const TTL := 600
  const GAP := 60
  const HOUR := 3600
  const HOURLY := 5
  const ATTEMPTS := 5

  datatype Addr = Addr(text: string)
  datatype Key = Key(purpose: string, to: Addr)

  /** `wrong` and `used` are history: tries that failed and tries that succeeded on this code. */
  datatype Entry = Entry(key: Key, code: string, expires: int, sentAt: int, attempts: nat, wrong: nat, used: nat)

  /** `sent` is history: every sending time per address; `times` is what the service keeps of it. */
  datatype State = State(codes: map<Key, nat>, entries: seq<Entry>, times: map<Addr, seq<int>>, sent: map<Addr, seq<int>>)

  const Start := State(map[], [], map[], map[])

  datatype Act =
    | Issue(to: Addr, purpose: string, now: int, drawn: Option<string>)
    | Verify(to: Addr, purpose: string, code: string, now: int)

  datatype Issued = Sent | Limited | TooSoon | NoRandom
  datatype Verdict = Right | Wrong | Expired | Unknown

  function At(m: map<Addr, seq<int>>, a: Addr): seq<int> { if a in m then m[a] else [] }

  function LastHour(ts: seq<int>, now: int): seq<int> {
    if ts == [] then [] else (if now - ts[0] < HOUR then [ts[0]] else []) + LastHour(ts[1..], now)
  }

  function Swept(s: State, now: int): map<Key, nat> {
    map k | k in s.codes && !(s.codes[k] < |s.entries| && now > s.entries[s.codes[k]].expires) :: s.codes[k]
  }

  function IssueVerdict(s: State, a: Act): Issued
    requires a.Issue?
  {
    var ts := LastHour(At(s.times, a.to), a.now);
    if |ts| >= HOURLY then Limited
    else if |ts| > 0 && a.now - ts[|ts| - 1] < GAP then TooSoon
    else if a.drawn.None? then NoRandom
    else Sent
  }

  function AfterIssue(s: State, a: Act): State
    requires a.Issue?
  {
    var ts := LastHour(At(s.times, a.to), a.now);
    var s1 := s.(codes := Swept(s, a.now), times := s.times[a.to := ts]);
    if !IssueVerdict(s, a).Sent? then s1
    else
      var key := Key(a.purpose, a.to);
      State(s1.codes[key := |s.entries|],
            s.entries + [Entry(key, a.drawn.value, a.now + TTL, a.now, 0, 0, 0)],
            s.times[a.to := ts + [a.now]],
            s.sent[a.to := At(s.sent, a.to) + [a.now]])
  }

  function VerifyVerdict(s: State, a: Act): Verdict
    requires a.Verify?
  {
    var key := Key(a.purpose, a.to);
    if key !in s.codes || s.codes[key] >= |s.entries| then Unknown
    else if a.now > s.entries[s.codes[key]].expires then Expired
    else if s.entries[s.codes[key]].code != a.code then Wrong
    else Right
  }

  function AfterVerify(s: State, a: Act): State
    requires a.Verify?
  {
    var key := Key(a.purpose, a.to);
    match VerifyVerdict(s, a)
    case Unknown => s
    case Expired => s.(codes := s.codes - {key})
    case Wrong =>
      var i := s.codes[key];
      var e := s.entries[i].(attempts := s.entries[i].attempts + 1, wrong := s.entries[i].wrong + 1);
      s.(entries := s.entries[i := e], codes := if e.attempts >= ATTEMPTS then s.codes - {key} else s.codes)
    case Right =>
      var i := s.codes[key];
      s.(entries := s.entries[i := s.entries[i].(used := s.entries[i].used + 1)], codes := s.codes - {key})
  }

  function Next(s: State, a: Act): State {
    if a.Issue? then AfterIssue(s, a) else AfterVerify(s, a)
  }

  function Run(acts: seq<Act>): State
    decreases |acts|
  {
    if acts == [] then Start else Next(Run(acts[..|acts| - 1]), acts[|acts| - 1])
  }

  // ---------------------------------------------------------------- each code

  predicate KeyOk(s: State, k: Key) {
    k in s.codes ==>
      && s.codes[k] < |s.entries|
      && s.entries[s.codes[k]].key == k && s.entries[s.codes[k]].used == 0
      && s.entries[s.codes[k]].attempts == s.entries[s.codes[k]].wrong < ATTEMPTS
  }

  predicate EntryOk(s: State, i: nat) {
    i < |s.entries| ==>
      && s.entries[i].used <= 1 && s.entries[i].wrong <= ATTEMPTS
      && (s.entries[i].used == 1 ==> s.entries[i].wrong < ATTEMPTS)
      && s.entries[i].expires == s.entries[i].sentAt + TTL
  }

  ghost predicate CodesOk(s: State) {
    && (forall k {:trigger KeyOk(s, k)} :: KeyOk(s, k))
    && (forall i: nat {:trigger EntryOk(s, i)} :: EntryOk(s, i))
  }

  lemma StepCodesOk(s: State, a: Act)
    requires CodesOk(s)
    ensures CodesOk(Next(s, a))
  {
    var s' := Next(s, a);
    forall k ensures KeyOk(s', k) { StepKeyOk(s, a, k); }
    forall i: nat ensures EntryOk(s', i) { StepEntryOk(s, a, i); }
  }

  lemma StepKeyOk(s: State, a: Act, k: Key)
    requires CodesOk(s)
    ensures KeyOk(Next(s, a), k)
  {
    assert KeyOk(s, Key(a.purpose, a.to)) && KeyOk(s, k);
  }

  lemma StepEntryOk(s: State, a: Act, i: nat)
    requires CodesOk(s)
    ensures EntryOk(Next(s, a), i)
  {
    assert KeyOk(s, Key(a.purpose, a.to)) && EntryOk(s, i);
  }

  /** Over every run, a code succeeds at most once, only after fewer than five wrong tries, and
      takes at most five wrong tries in all. */
  lemma {:induction false} EachCodeOnce(acts: seq<Act>, i: nat)
    requires i < |Run(acts).entries|
    ensures var e := Run(acts).entries[i];
            e.used <= 1 && e.wrong <= ATTEMPTS && (e.used == 1 ==> e.wrong < ATTEMPTS)
  {
    RunCodesOk(acts);
    assert EntryOk(Run(acts), i);
  }

  lemma {:induction false} RunCodesOk(acts: seq<Act>)
    ensures CodesOk(Run(acts))
    decreases |acts|
  {
    if acts == [] {
      assert forall k :: KeyOk(Start, k);
    } else {
      RunCodesOk(acts[..|acts| - 1]);
      StepCodesOk(Run(acts[..|acts| - 1]), acts[|acts| - 1]);
    }
  }

  /** A success uses up an unused code sent to that address for that purpose at most ten minutes
      ago; no other code's history moves. */
  lemma SuccessMeans(acts: seq<Act>, a: Act)
    requires a.Verify? && VerifyVerdict(Run(acts), a).Right?
    ensures var s, s' := Run(acts), Next(Run(acts), a);
            exists i :: 0 <= i < |s.entries| && s.entries[i].key == Key(a.purpose, a.to) && s.entries[i].code == a.code
              && a.now <= s.entries[i].sentAt + TTL && s.entries[i].used == 0
              && s'.entries == s.entries[i := s.entries[i].(used := 1)] && Key(a.purpose, a.to) !in s'.codes
  {
    RunCodesOk(acts);
    RightMeans(Run(acts), a);
  }

  lemma RightMeans(s: State, a: Act)
    requires CodesOk(s) && a.Verify? && VerifyVerdict(s, a).Right?
    ensures var s' := Next(s, a);
            exists i :: 0 <= i < |s.entries| && s.entries[i].key == Key(a.purpose, a.to) && s.entries[i].code == a.code
              && a.now <= s.entries[i].sentAt + TTL && s.entries[i].used == 0
              && s'.entries == s.entries[i := s.entries[i].(used := 1)] && Key(a.purpose, a.to) !in s'.codes
  {
    var i := s.codes[Key(a.purpose, a.to)];
    assert KeyOk(s, Key(a.purpose, a.to)) && EntryOk(s, i);
    assert s.entries[i].key == Key(a.purpose, a.to);
  }

  /** What a code survives for `since` seconds after `t`: issues for other purposes and addresses and those
      that send nothing, and wrong tries, all at readings within ten minutes of its sending. */
  predicate Spares(s: State, a: Act, key: Key, code: string, t: int) {
    if a.Issue? then a.now <= t + 600 && !(Key(a.purpose, a.to) == key && IssueVerdict(s, a).Sent?)
    else Key(a.purpose, a.to) == key ==> a.now <= t + 600 && a.code != code
  }

  predicate SparedSince(acts: seq<Act>, i: nat, key: Key, code: string, t: int)
    decreases |acts|
  {
    |acts| <= i || (SparedSince(acts[..|acts| - 1], i, key, code, t)
                    && Spares(Run(acts[..|acts| - 1]), acts[|acts| - 1], key, code, t))
  }

  /** The tries on a key from step `i` on. */
  function TriesSince(acts: seq<Act>, i: nat, key: Key): nat
    decreases |acts|
  {
    if |acts| <= i then 0
    else
      var a := acts[|acts| - 1];
      TriesSince(acts[..|acts| - 1], i, key) + if a.Verify? && Key(a.purpose, a.to) == key then 1 else 0
  }

  predicate LiveAs(s: State, key: Key, code: string, t: int, tries: nat) {
    && key in s.codes && s.codes[key] < |s.entries|
    && s.entries[s.codes[key]].code == code && s.entries[s.codes[key]].expires == t + 600
    && s.entries[s.codes[key]].attempts == tries
  }

  lemma StepLive(s: State, a: Act, key: Key, code: string, t: int, tries: nat)
    requires CodesOk(s) && LiveAs(s, key, code, t, tries) && Spares(s, a, key, code, t)
    requires a.Verify? && Key(a.purpose, a.to) == key ==> tries + 1 < 5
    ensures LiveAs(Next(s, a), key, code, t, tries + if a.Verify? && Key(a.purpose, a.to) == key then 1 else 0)
  {
    assert KeyOk(s, key) && KeyOk(s, Key(a.purpose, a.to));
  }

  lemma SentIsLive(s: State, a: Act)
    requires a.Issue? && IssueVerdict(s, a).Sent?
    ensures LiveAs(Next(s, a), Key(a.purpose, a.to), a.drawn.value, a.now, 0)
  {
  }

  /** Over every run: a code that was sent at step `i` is live, and the right code is accepted, as long as no
      newer one was sent for the same purpose and address, it was not used, fewer than five tries were made on
      it, and no call has read the clock more than ten minutes after its sending. */
  lemma {:induction false} LiveCodeSucceeds(acts: seq<Act>, i: nat, a: Act)
    requires i < |acts| && acts[i].Issue? && IssueVerdict(Run(acts[..i]), acts[i]).Sent?
    requires var key, code := Key(acts[i].purpose, acts[i].to), acts[i].drawn.value;
             SparedSince(acts, i + 1, key, code, acts[i].now) && TriesSince(acts, i + 1, key) < 5
    requires a.Verify? && a.purpose == acts[i].purpose && a.to == acts[i].to && a.code == acts[i].drawn.value
    requires a.now <= acts[i].now + 600
    ensures VerifyVerdict(Run(acts), a).Right?
  {
    SentIsLive(Run(acts[..i]), acts[i]);
    assert acts[..i + 1][..i] == acts[..i];
    StaysLive(acts, i + 1, Key(a.purpose, a.to), a.code, acts[i].now);
  }

  lemma {:induction false} StaysLive(acts: seq<Act>, n: nat, key: Key, code: string, t: int)
    requires n <= |acts| && LiveAs(Run(acts[..n]), key, code, t, 0)
    requires SparedSince(acts, n, key, code, t) && TriesSince(acts, n, key) < 5
    ensures LiveAs(Run(acts), key, code, t, TriesSince(acts, n, key))
    decreases |acts|
  {
    var last := |acts| - 1;
    if n == |acts| {
      assert acts[..n] == acts;
    } else {
      assert acts[..last][..n] == acts[..n];
      StaysLive(acts[..last], n, key, code, t);
      RunCodesOk(acts[..last]);
      StepLive(Run(acts[..last]), acts[last], key, code, t, TriesSince(acts[..last], n, key));
    }
  }

  // ---------------------------------------------------------------- each address

  predicate GapAt(ts: seq<int>, i: nat) { i + 1 < |ts| ==> ts[i + 1] - ts[i] >= GAP }

  predicate HourAt(ts: seq<int>, i: nat) { i + HOURLY < |ts| ==> ts[i + HOURLY] - ts[i] >= HOUR }

  /** At least a minute between sendings, and no six within one hour. */
  ghost predicate Paced(ts: seq<int>) {
    && (forall i: nat {:trigger GapAt(ts, i)} :: GapAt(ts, i))
    && (forall i: nat {:trigger HourAt(ts, i)} :: HourAt(ts, i))
  }

  /** The two tests of `Issue`, on a list of sendings. */
  predicate Lets(ts: seq<int>, now: int) {
    var recent := LastHour(ts, now);
    |recent| < HOURLY && (recent != [] ==> now - recent[|recent| - 1] >= GAP)
  }

  predicate Concerns(a: Act, to: Addr) { a.Issue? && a.to == to }

  /** One address's share of a run (`LedgerIsRun`): the sendings that are kept, and all of them. */
  function Ledger(acts: seq<Act>, to: Addr): (seq<int>, seq<int>)
    decreases |acts|
  {
    if acts == [] then ([], []) else AfterAct(Ledger(acts[..|acts| - 1], to), acts[|acts| - 1], to)
  }

  function AfterAct(was: (seq<int>, seq<int>), a: Act, to: Addr): (seq<int>, seq<int>) {
    if !Concerns(a, to) then was
    else if Lets(was.0, a.now) && a.drawn.Some? then (LastHour(was.0, a.now) + [a.now], was.1 + [a.now])
    else (LastHour(was.0, a.now), was.1)
  }

  lemma {:induction false} LedgerIsRun(acts: seq<Act>, to: Addr)
    ensures Ledger(acts, to) == (At(Run(acts).times, to), At(Run(acts).sent, to))
    decreases |acts|
  {
    if acts != [] {
      LedgerIsRun(acts[..|acts| - 1], to);
      NextLedger(Run(acts[..|acts| - 1]), acts[|acts| - 1], to);
    }
  }

  lemma NextLedger(s: State, a: Act, to: Addr)
    ensures (At(Next(s, a).times, to), At(Next(s, a).sent, to)) == AfterAct((At(s.times, to), At(s.sent, to)), a, to)
  {
    if Concerns(a, to) {
      assert IssueVerdict(s, a).Sent? <==> Lets(At(s.times, to), a.now) && a.drawn.Some?;
    }
  }

  lemma OneMore(acts: seq<Act>, a: Act, to: Addr)
    ensures Ledger(acts + [a], to) == AfterAct(Ledger(acts, to), a, to)
  {
    assert (acts + [a])[..|acts|] == acts;
  }

  lemma {:induction false} PacedIsSorted(ts: seq<int>, i: nat, j: nat)
    requires Paced(ts) && i <= j < |ts|
    ensures ts[i] <= ts[j]
    decreases j
  {
    if i < j {
      PacedIsSorted(ts, i, j - 1);
      assert GapAt(ts, j - 1);
    }
  }

  lemma PacedOneMore(all: seq<int>, now: int)
    requires Paced(all)
    ensures Paced(all + [now]) <==>
            (all != [] ==> now - all[|all| - 1] >= GAP) && (|all| >= HOURLY ==> now - all[|all| - HOURLY] >= HOUR)
  {
    var n, ts := |all|, all + [now];
    if Paced(ts) {
      assert n >= 1 ==> GapAt(ts, n - 1);
      assert n >= HOURLY ==> HourAt(ts, n - HOURLY);
    }
    if (all != [] ==> now - all[n - 1] >= GAP) && (n >= HOURLY ==> now - all[n - HOURLY] >= HOUR) {
      forall i: nat ensures GapAt(ts, i) && HourAt(ts, i) { assert GapAt(all, i) && HourAt(all, i); }
    }
  }

  /** `kept` is the end of `all`. */
  predicate End(kept: seq<int>, all: seq<int>) {
    |kept| <= |all| && kept == all[|all| - |kept|..]
  }

  /** `recent` is `kept` without the sendings an hour old or older. */
  predicate Trimmed(kept: seq<int>, recent: seq<int>, all: seq<int>, now: int) {
    && End(recent, all) && |recent| <= |kept| <= |all|
    && (recent != [] ==> now - recent[0] < HOUR)
    && (|recent| < |kept| ==> now - all[|all| - |recent| - 1] >= HOUR)
  }

  /** Trimming the end of a paced history leaves the end of that history. */
  lemma {:induction false} TrimEnd(kept: seq<int>, all: seq<int>, now: int)
    requires Paced(all) && End(kept, all)
    ensures Trimmed(kept, LastHour(kept, now), all, now)
    decreases |kept|
  {
    if kept != [] {
      assert kept[1..] == all[|all| - |kept| + 1..];
      TrimEnd(kept[1..], all, now);
      TrimStep(kept, LastHour(kept[1..], now), all, now);
    }
  }

  lemma TrimStep(kept: seq<int>, rest: seq<int>, all: seq<int>, now: int)
    requires Paced(all) && kept != [] && End(kept, all) && Trimmed(kept[1..], rest, all, now)
    ensures Trimmed(kept, (if now - kept[0] < HOUR then [kept[0]] else []) + rest, all, now)
  {
    var n := |all| - |kept|;
    assert kept[0] == all[n];
    if now - kept[0] < HOUR {
      if |rest| < |kept| - 1 { PacedIsSorted(all, n, |all| - |rest| - 1); }
      assert rest == all[n + 1..] == kept[1..];
      assert [kept[0]] + kept[1..] == kept;
    } else {
      assert [] + rest == rest;
    }
  }

  lemma Dropped(kept: seq<int>, all: seq<int>, now: int, i: nat)
    requires Paced(all) && End(kept, all) && i < |all|
    ensures |LastHour(kept, now)| <= |kept|
    ensures i < |all| - |LastHour(kept, now)| <==> i < |all| - |kept| || now - all[i] >= HOUR
  {
    TrimEnd(kept, all, now);
    DroppedAt(kept, LastHour(kept, now), all, now, i);
  }

  lemma DroppedAt(kept: seq<int>, recent: seq<int>, all: seq<int>, now: int, i: nat)
    requires Paced(all) && Trimmed(kept, recent, all, now) && i < |all|
    ensures i < |all| - |recent| <==> i < |all| - |kept| || now - all[i] >= HOUR
  {
    var first := |all| - |recent|;
    if i < first {
      PacedIsSorted(all, i, first - 1);
    } else {
      PacedIsSorted(all, first, i);
    }
  }

  lemma EndLast(kept: seq<int>, all: seq<int>)
    requires End(kept, all) && kept != []
    ensures kept[|kept| - 1] == all[|all| - 1]
  {
  }

  lemma FewMeans(kept: seq<int>, all: seq<int>, now: int)
    requires Paced(all) && End(kept, all)
    ensures |LastHour(kept, now)| < HOURLY <==>
            (|all| >= HOURLY ==> |kept| < HOURLY || now - all[|all| - HOURLY] >= HOUR)
  {
    if |all| >= HOURLY {
      Dropped(kept, all, now, |all| - HOURLY);
    } else {
      TrimEnd(kept, all, now);
    }
  }

  lemma GapMeans(kept: seq<int>, all: seq<int>, now: int)
    requires Paced(all) && End(kept, all)
    ensures var recent := LastHour(kept, now);
            (recent != [] ==> now - recent[|recent| - 1] >= GAP) <==> (kept != [] ==> now - all[|all| - 1] >= GAP)
  {
    TrimEnd(kept, all, now);
    if kept != [] {
      Dropped(kept, all, now, |all| - 1);
      if LastHour(kept, now) != [] { EndLast(LastHour(kept, now), all); }
    }
  }

  /** What the tests on the end of a paced history say of the whole. */
  lemma LetsMeans(kept: seq<int>, all: seq<int>, now: int)
    requires Paced(all) && End(kept, all)
    ensures Lets(kept, now) <==>
            && (|all| >= HOURLY ==> |kept| < HOURLY || now - all[|all| - HOURLY] >= HOUR)
            && (kept != [] ==> now - all[|all| - 1] >= GAP)
  {
    FewMeans(kept, all, now);
    GapMeans(kept, all, now);
  }

  ghost predicate AlwaysPaced(acts: seq<Act>, to: Addr)
    decreases |acts|
  {
    Paced(At(Run(acts).sent, to)) && (acts == [] || AlwaysPaced(acts[..|acts| - 1], to))
  }

  /** The `i`-th sending to this address has been lost to a failed draw: some later call passed both
      tests and then got no code, at a reading an hour or more after that sending. */
  predicate Lost(acts: seq<Act>, i: nat, to: Addr)
    decreases |acts|
  {
    acts != [] &&
    var init, a := acts[..|acts| - 1], acts[|acts| - 1];
    Lost(init, i, to) || Misses(Ledger(init, to), a, i, to)
  }

  predicate Misses(was: (seq<int>, seq<int>), a: Act, i: nat, to: Addr) {
    Concerns(a, to) && Lets(was.0, a.now) && a.drawn.None? && i < |was.1| && a.now - was.1[i] >= HOUR
  }

  /** The `back`-th last sending is lost. */
  predicate LostFromEnd(acts: seq<Act>, back: nat, to: Addr) {
    var n := |Ledger(acts, to).1|;
    back <= n && Lost(acts, n - back, to)
  }

  /** The reading is too early for the last sending, which is lost, or, a minute after that one, too
      early for the fifth last, which is lost. */
  predicate TooEarly(all: seq<int>, now: int, lostLast: bool, lostFifth: bool) {
    var n := |all|;
    || (n >= 1 && lostLast && now - all[n - 1] < GAP)
    || (n >= HOURLY && lostFifth && now - all[n - 1] >= GAP && now - all[n - HOURLY] < HOUR)
  }

  /** A call with a code in hand that reads the clock too early in that sense. */
  predicate Overtaken(init: seq<Act>, a: Act, to: Addr) {
    && Concerns(a, to) && a.drawn.Some?
    && TooEarly(Ledger(init, to).1, a.now, LostFromEnd(init, 1, to), LostFromEnd(init, HOURLY, to))
  }

  predicate NeverOvertaken(acts: seq<Act>, to: Addr)
    decreases |acts|
  {
    acts == [] || (NeverOvertaken(acts[..|acts| - 1], to) && !Overtaken(acts[..|acts| - 1], acts[|acts| - 1], to))
  }

  /** If the `i`-th sending has been dropped it is lost, or so old that no sending a minute after the
      last one can be within its hour; if it is lost it has been dropped. */
  predicate Accounted(kept: seq<int>, all: seq<int>, i: nat, lost: bool) {
    && (i < |all| - |kept| ==> lost || all[i] + HOUR <= all[|all| - 1] + GAP)
    && (lost ==> i < |all| - |kept|)
  }

  predicate AccountedAt(acts: seq<Act>, i: nat, to: Addr) {
    Accounted(Ledger(acts, to).0, Ledger(acts, to).1, i, Lost(acts, i, to))
  }

  ghost predicate Forgets(acts: seq<Act>, to: Addr) {
    && End(Ledger(acts, to).0, Ledger(acts, to).1) && |Ledger(acts, to).0| <= HOURLY
    && forall i: nat {:trigger AccountedAt(acts, i, to)} :: AccountedAt(acts, i, to)
  }

  lemma LetUnlessTooEarly(kept: seq<int>, all: seq<int>, a: Act, to: Addr, lostLast: bool, lostFifth: bool)
    requires Paced(all) && End(kept, all) && |kept| <= HOURLY
    requires |all| >= 1 ==> Accounted(kept, all, |all| - 1, lostLast)
    requires |all| >= HOURLY ==> Accounted(kept, all, |all| - HOURLY, lostFifth)
    ensures Paced(AfterAct((kept, all), a, to).1) <==>
            !(Concerns(a, to) && a.drawn.Some? && TooEarly(all, a.now, lostLast, lostFifth))
  {
    if Concerns(a, to) && a.drawn.Some? {
      LetsMeans(kept, all, a.now);
      PacedOneMore(all, a.now);
    }
  }

  lemma ForgetsFromEnd(acts: seq<Act>, back: nat, to: Addr)
    requires Forgets(acts, to) && 1 <= back <= |Ledger(acts, to).1|
    ensures Accounted(Ledger(acts, to).0, Ledger(acts, to).1, |Ledger(acts, to).1| - back, LostFromEnd(acts, back, to))
  {
    assert AccountedAt(acts, |Ledger(acts, to).1| - back, to);
  }

  /** A call that is not overtaken keeps the pace; one that is, is let through and breaks it. */
  lemma SentIsPacedIff(init: seq<Act>, a: Act, to: Addr)
    requires Forgets(init, to) && Paced(Ledger(init, to).1)
    ensures Paced(AfterAct(Ledger(init, to), a, to).1) <==> !Overtaken(init, a, to)
  {
    var kept, all := Ledger(init, to).0, Ledger(init, to).1;
    if |all| >= 1 { ForgetsFromEnd(init, 1, to); }
    if |all| >= HOURLY { ForgetsFromEnd(init, HOURLY, to); }
    LetUnlessTooEarly(kept, all, a, to, LostFromEnd(init, 1, to), LostFromEnd(init, HOURLY, to));
  }

  lemma StepForgets(init: seq<Act>, a: Act, to: Addr)
    requires Forgets(init, to) && Paced(Ledger(init, to).1) && Paced(AfterAct(Ledger(init, to), a, to).1)
    ensures Forgets(init + [a], to)
  {
    OneMore(init, a, to);
    var kept, all := Ledger(init, to).0, Ledger(init, to).1;
    StepEnd(kept, all, a, to);
    assert (init + [a])[..|init|] == init;
    forall i: nat ensures AccountedAt(init + [a], i, to) {
      assert AccountedAt(init, i, to);
      StepAccounted(kept, all, a, to, i, Lost(init, i, to));
    }
  }

  lemma StepEnd(kept: seq<int>, all: seq<int>, a: Act, to: Addr)
    requires Paced(all) && End(kept, all) && |kept| <= HOURLY
    ensures var now := AfterAct((kept, all), a, to); End(now.0, now.1) && |now.0| <= HOURLY
  {
    if Concerns(a, to) { TrimEnd(kept, all, a.now); }
  }

  lemma StepAccounted(kept: seq<int>, all: seq<int>, a: Act, to: Addr, i: nat, lost: bool)
    requires Paced(all) && End(kept, all) && |kept| <= HOURLY && Accounted(kept, all, i, lost)
    requires Paced(AfterAct((kept, all), a, to).1)
    ensures var now := AfterAct((kept, all), a, to); Accounted(now.0, now.1, i, lost || Misses((kept, all), a, i, to))
  {
    if Concerns(a, to) {
      if i < |all| { Dropped(kept, all, a.now, i); }
      PacedOneMore(all, a.now);
      TrimEnd(kept, all, a.now);
      var recent := LastHour(kept, a.now);
      if recent != [] { EndLast(recent, all); }
    }
  }

  /** Over every run, whatever the clock readings: an address is sent at most five codes in any hour,
      at least a minute apart, exactly if no call is overtaken. */
  lemma {:induction false} PacedIff(acts: seq<Act>, to: Addr)
    ensures AlwaysPaced(acts, to) <==> NeverOvertaken(acts, to)
    ensures AlwaysPaced(acts, to) ==> Forgets(acts, to)
    decreases |acts|
  {
    LedgerIsRun(acts, to);
    if acts == [] {
      assert forall i: nat :: AccountedAt([], i, to);
    } else {
      var init, a := acts[..|acts| - 1], acts[|acts| - 1];
      assert acts == init + [a];
      PacedIff(init, to);
      if AlwaysPaced(init, to) {
        LedgerIsRun(init, to);
        SentIsPacedIff(init, a, to);
        if AlwaysPaced(acts, to) { StepForgets(init, a, to); }
      }
    }
  }

  /** The generator never fails a call for this address. */
  predicate AlwaysDraws(acts: seq<Act>, to: Addr) {
    forall i | 0 <= i < |acts| && Concerns(acts[i], to) :: acts[i].drawn.Some?
  }

  lemma {:induction false} NothingLost(acts: seq<Act>, i: nat, to: Addr)
    requires AlwaysDraws(acts, to)
    ensures !Lost(acts, i, to)
    decreases |acts|
  {
    if acts != [] { NothingLost(acts[..|acts| - 1], i, to); }
  }

  /** So an address is sent at most five codes in any hour, at least a minute apart, whatever their
      purposes and in whatever order the calls read the clock. */
  lemma {:induction false} SendingIsPaced(acts: seq<Act>, to: Addr)
    requires AlwaysDraws(acts, to)
    ensures AlwaysPaced(acts, to)
  {
    NotOvertaken(acts, to);
    PacedIff(acts, to);
  }

  lemma {:induction false} NotOvertaken(acts: seq<Act>, to: Addr)
    requires AlwaysDraws(acts, to)
    ensures NeverOvertaken(acts, to)
    decreases |acts|
  {
    if acts != [] {
      NotOvertaken(acts[..|acts| - 1], to);
      NotOvertakenNow(acts[..|acts| - 1], acts[|acts| - 1], to);
    }
  }

  lemma NotOvertakenNow(init: seq<Act>, a: Act, to: Addr)
    requires AlwaysDraws(init, to)
    ensures !Overtaken(init, a, to)
  {
    forall i: nat ensures !Lost(init, i, to) { NothingLost(init, i, to); }
  }

  /** And nothing is held back without need: a code is sent exactly if the pace allows it. */
  lemma SentIffPaced(acts: seq<Act>, a: Act)
    requires a.Issue? && AlwaysDraws(acts, a.to)
    ensures IssueVerdict(Run(acts), a).Sent? <==> a.drawn.Some? && Paced(At(Run(acts).sent, a.to) + [a.now])
  {
    SendingIsPaced(acts, a.to);
    PacedIff(acts, a.to);
    LedgerIsRun(acts, a.to);
    NotOvertakenNow(acts, a, a.to);
    SentIsPacedIff(acts, a, a.to);
    var kept, all := Ledger(acts, a.to).0, Ledger(acts, a.to).1;
    LetsMeans(kept, all, a.now);
    PacedOneMore(all, a.now);
  }

  // ---------------------------------------------------------------- were the generator to fail

  function Try(to: Addr, now: int, drawn: Option<string>): Act { Issue(to, "register", now, drawn) }

  function Minutes(n: nat): seq<int> { seq(n, i => 60 * i) }

  /** A code a minute. */
  function Sends(to: Addr, n: nat): seq<Act> {
    if n == 0 then [] else Sends(to, n - 1) + [Try(to, 60 * (n - 1), Some("a"))]
  }

  lemma {:induction false} AllRecent(ts: seq<int>, now: int)
    requires forall i | 0 <= i < |ts| :: now - ts[i] < HOUR
    ensures LastHour(ts, now) == ts
    decreases |ts|
  {
    if ts != [] { AllRecent(ts[1..], now); }
  }

  lemma SendOne(ts: seq<int>, all: seq<int>, to: Addr, now: int, code: string)
    requires |ts| < HOURLY && forall i | 0 <= i < |ts| :: now - ts[i] < HOUR
    requires ts != [] ==> now - ts[|ts| - 1] >= GAP
    ensures AfterAct((ts, all), Try(to, now, Some(code)), to) == (ts + [now], all + [now])
  {
    AllRecent(ts, now);
  }

  lemma SendNext(to: Addr, n: nat)
    requires n < HOURLY
    ensures AfterAct((Minutes(n), Minutes(n)), Try(to, 60 * n, Some("a")), to) == (Minutes(n + 1), Minutes(n + 1))
  {
    SendOne(Minutes(n), Minutes(n), to, 60 * n, "a");
    assert Minutes(n + 1) == Minutes(n) + [60 * n];
  }

  lemma {:induction false} UpToFiveAreSent(to: Addr, n: nat)
    requires n <= HOURLY
    ensures Ledger(Sends(to, n), to) == (Minutes(n), Minutes(n))
  {
    if n == 0 {
      assert Minutes(0) == [];
    } else {
      UpToFiveAreSent(to, n - 1);
      OneMore(Sends(to, n - 1), Try(to, 60 * (n - 1), Some("a")), to);
      SendNext(to, n - 1);
    }
  }

  /** What a generator that can fail would allow.  Five codes are sent; a sixth request reads the clock
      one second before an hour has passed but is overtaken by a seventh, which drops the first sending
      and then fails to draw a code; so the sixth is sent as well, within the hour. */
  lemma FailedDrawLosesOne(to: Addr)
    ensures var acts := Sends(to, HOURLY) + [Try(to, 3600, None)] + [Try(to, 3599, Some("f"))];
            At(Run(acts).sent, to) == Minutes(HOURLY) + [3599] && !AlwaysPaced(acts, to)
  {
    var five, late, early := Sends(to, HOURLY), Try(to, 3600, None), Try(to, 3599, Some("f"));
    var ts := Minutes(HOURLY);
    UpToFiveAreSent(to, HOURLY);
    OneMore(five, late, to);
    OneMore(five + [late], early, to);
    LedgerIsRun(five + [late] + [early], to);
    LateDrops(to);
    SendOne(ts[1..], ts, to, 3599, "f");
    var sent := ts + [3599];
    assert !HourAt(sent, 0);
  }

  lemma LateDrops(to: Addr)
    ensures AfterAct((Minutes(HOURLY), Minutes(HOURLY)), Try(to, 3600, None), to) == (Minutes(HOURLY)[1..], Minutes(HOURLY))
  {
    var ts := Minutes(HOURLY);
    AllRecent(ts[1..], 3600);
    assert LastHour(ts, 3600) == LastHour(ts[1..], 3600);
  }

  // ---------------------------------------------------------------- the service object

  lemma HourStep(all: seq<int>, i: nat, now: int)
    requires i < |all|
    ensures LastHour(all[i..], now) == (if now - all[i] < HOUR then [all[i]] else []) + LastHour(all[i + 1..], now)
  {
    assert all[i..][0] == all[i] && all[i..][1..] == all[i + 1..];
  }

  /** The answer to a submitted code: right exactly if it is the live code for that purpose and address and
      no more than ten minutes old. */
  ghost predicate VerifySays(s: State, key: Key, code: string, now: int, res: Verdict) {
    if key !in s.codes then res == Unknown
    else
      && s.codes[key] < |s.entries|
      && var e := s.entries[s.codes[key]];
         && (res == Expired <==> now > e.expires) && (res == Wrong <==> now <= e.expires && code != e.code)
         && (res == Right <==> now <= e.expires && code == e.code) && res != Unknown
  }

  class VerificationService {
    var codes: map<Key, nat>
    var entries: seq<Entry>
    var sendTimes: map<Addr, seq<int>>
    ghost var sent: map<Addr, seq<int>>

    ghost function View(): State
      reads this
    {
      State(codes, entries, sendTimes, sent)
    }

    constructor ()
      ensures View() == Start
    {
      codes, entries, sendTimes, sent := map[], [], map[], map[];
    }

    method DropExpired(now: int)
      modifies this`codes
      ensures codes == Swept(old(View()), now)
    {
      var todo := codes.Keys;
      while todo != {}
        invariant todo <= old(codes).Keys
        invariant codes == map k | k in old(codes) &&
                    (k in todo || !(old(codes)[k] < |entries| && now > entries[old(codes)[k]].expires)) :: old(codes)[k]
        decreases todo
      {
        var k :| k in todo;
        if codes[k] < |entries| && now > entries[codes[k]].expires {
          codes := codes - {k};
        }
        todo := todo - {k};
      }
    }

    method TrimTimes(to: Addr, now: int) returns (times: seq<int>)
      ensures times == LastHour(At(sendTimes, to), now)
    {
      var all := if to in sendTimes then sendTimes[to] else [];
      ghost var want := LastHour(all, now);
      assert all[0..] == all;
      times := [];
      var i := 0;
      while i < |all|
        invariant i <= |all| && want == times + LastHour(all[i..], now)
      {
        HourStep(all, i, now);
        var add := if now - all[i] < HOUR then [all[i]] else [];
        Assoc(times, add, LastHour(all[i + 1..], now));
        times := times + add;
        i := i + 1;
      }
    }

    /** `Issue` up to the mail itself; `drawn` is the random code, or none if the generator failed. */
    method IssueCode(to: Addr, purpose: string, now: int, drawn: Option<string>) returns (res: Issued)
      modifies this
      ensures res == IssueVerdict(old(View()), Issue(to, purpose, now, drawn))
      ensures View() == Next(old(View()), Issue(to, purpose, now, drawn))
      ensures res.NoRandom? ==> drawn.None?
      ensures res.Sent? ==>
                && drawn.Some? && Key(purpose, to) in codes && codes[Key(purpose, to)] == |old(entries)|
                && entries == old(entries) + [Entry(Key(purpose, to), drawn.value, now + 600, now, 0, 0, 0)]
      ensures !res.Sent? ==> entries == old(entries)
      // every other code stays until a call reads the clock past its ten minutes
      ensures forall k | !(res.Sent? && k == Key(purpose, to)) ::
                k in codes <==> k in old(codes) && !(old(codes)[k] < |old(entries)| && now > old(entries)[old(codes)[k]].expires)
      ensures forall k | k in codes && !(res.Sent? && k == Key(purpose, to)) :: codes[k] == old(codes)[k]
    {
      DropExpired(now);
      var times := TrimTimes(to, now);
      sendTimes := sendTimes[to := times];
      if |times| >= HOURLY {
        return Limited;
      }
      if |times| > 0 && now - times[|times| - 1] < GAP {
        return TooSoon;
      }
      if drawn.None? {
        return NoRandom;
      }
      Record(Key(purpose, to), drawn.value, now, times);
      assert old(sendTimes)[to := times][to := times + [now]] == old(sendTimes)[to := times + [now]];
      return Sent;
    }

    /** The new code takes the place of an older one for the same purpose and address. */
    method Record(key: Key, code: string, now: int, times: seq<int>)
      modifies this
      ensures codes == old(codes)[key := |old(entries)|]
      ensures entries == old(entries) + [Entry(key, code, now + TTL, now, 0, 0, 0)]
      ensures sendTimes == old(sendTimes)[key.to := times + [now]] && sent == old(sent)[key.to := At(old(sent), key.to) + [now]]
    {
      codes := codes[key := |entries|];
      entries := entries + [Entry(key, code, now + TTL, now, 0, 0, 0)];
      sendTimes := sendTimes[key.to := times + [now]];
      sent := sent[key.to := At(sent, key.to) + [now]];
    }

    method VerifyCode(to: Addr, purpose: string, code: string, now: int) returns (res: Verdict)
      requires CodesOk(View())
      modifies this`codes, this`entries
      ensures res == VerifyVerdict(old(View()), Verify(to, purpose, code, now))
      ensures View() == Next(old(View()), Verify(to, purpose, code, now)) && CodesOk(View())
      ensures VerifySays(old(View()), Key(purpose, to), code, now, res)
    {
      StepCodesOk(View(), Verify(to, purpose, code, now));
      assert KeyOk(View(), Key(purpose, to));
      var key := Key(purpose, to);
      assert KeyOk(View(), key);
      if key !in codes {
        return Unknown;
      }
      var i := codes[key];
      var e := entries[i];
      if now > e.expires {
        codes := codes - {key};
        return Expired;
      }
      if e.code != code {
        e := e.(attempts := e.attempts + 1, wrong := e.wrong + 1);
        entries := entries[i := e];
        if e.attempts >= ATTEMPTS {
          codes := codes - {key};
        }
        return Wrong;
      }
      entries := entries[i := e.(used := e.used + 1)];
      codes := codes - {key};
      return Right;
    }
  }
}
