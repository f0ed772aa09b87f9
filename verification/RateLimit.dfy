/** The sliding-window limiter (internal/users/register.go:29-110): trims expired records in place
    and sweeps idle keys, and must decide as if it kept every accepted event. */
module RateLimit {
  import opened Prelude

  datatype Key = Key(text: string)
  type Times = seq<int>
  type Events = map<Key, Times>
  datatype Config = Config(limit: int, window: int)

  const MAX_KEYS := 8192

  datatype Call = Allow(k: Key, now: int) | Allowed(k: Key, now: int) | Reset(k: Key)

  function TimesOf(e: Events, k: Key): Times { if k in e then e[k] else [] }

  /** The records still inside the window. */
  function Live(ts: Times, now: int, window: int): Times {
    if ts == [] then []
    else (if now - ts[0] < window then [ts[0]] else []) + Live(ts[1..], now, window)
  }

  // ---------------------------------------------------------------- the two limiters

  function Expired(ts: Times, now: int, window: int): bool {
    ts == [] || now - ts[|ts| - 1] >= window
  }

  /** `pruneLocked`: a sweep, only when there are too many keys. */
  function Prune(e: Events, now: int, c: Config): Events {
    if |e| <= MAX_KEYS then e else map k | k in e && !Expired(e[k], now, c.window) :: e[k]
  }

  /** One call on the source's limiter: the new records and the verdict. */
  function Fast(e: Events, call: Call, c: Config): (Events, bool) {
    match call
    case Reset(k) => (e - {k}, true)
    case Allowed(k, now) =>
      var p := Prune(e, now, c);
      var ts := Live(TimesOf(p, k), now, c.window);
      (p[k := ts], |ts| < c.limit)
    case Allow(k, now) =>
      var p := Prune(e, now, c);
      var ts := Live(TimesOf(p, k), now, c.window);
      if |ts| >= c.limit then (p[k := ts], false) else (p[k := ts + [now]], true)
  }

  /** The reference limiter keeps every accepted event since the last reset and never forgets. */
  function Full(h: Events, call: Call, c: Config): (Events, bool) {
    match call
    case Reset(k) => (h - {k}, true)
    case Allowed(k, now) => (h, |Live(TimesOf(h, k), now, c.window)| < c.limit)
    case Allow(k, now) =>
      if |Live(TimesOf(h, k), now, c.window)| >= c.limit then (h, false) else (h[k := TimesOf(h, k) + [now]], true)
  }

  function FastRun(calls: seq<Call>, c: Config): (Events, seq<bool>)
    decreases |calls|
  {
    if calls == [] then (map[], [])
    else
      var was := FastRun(calls[..|calls| - 1], c);
      var next := Fast(was.0, calls[|calls| - 1], c);
      (next.0, was.1 + [next.1])
  }

  function FullRun(calls: seq<Call>, c: Config): (Events, seq<bool>)
    decreases |calls|
  {
    if calls == [] then (map[], [])
    else
      var was := FullRun(calls[..|calls| - 1], c);
      var next := Full(was.0, calls[|calls| - 1], c);
      (next.0, was.1 + [next.1])
  }

  // ---------------------------------------------------------------- what has been dropped

  /** An accepted event, and whether an earlier call has already dropped it. */
  datatype Rec = Rec(at: int, gone: bool)
  type History = map<Key, seq<Rec>>

  function RecsOf(h: History, k: Key): seq<Rec> { if k in h then h[k] else [] }

  function All(rs: seq<Rec>): Times {
    if rs == [] then [] else [rs[0].at] + All(rs[1..])
  }

  function Kept(rs: seq<Rec>): Times {
    if rs == [] then [] else (if rs[0].gone then [] else [rs[0].at]) + Kept(rs[1..])
  }

  /** A call on the key drops what its reading finds expired. */
  function Trim(rs: seq<Rec>, now: int, window: int): seq<Rec> {
    if rs == [] then [] else [Rec(rs[0].at, rs[0].gone || now - rs[0].at >= window)] + Trim(rs[1..], now, window)
  }

  function Bury(rs: seq<Rec>): seq<Rec> {
    if rs == [] then [] else [Rec(rs[0].at, true)] + Bury(rs[1..])
  }

  /** The records dropped by now although this reading still finds them inside the window. */
  function Lost(rs: seq<Rec>, now: int, window: int): nat {
    if rs == [] then 0 else (if rs[0].gone && now - rs[0].at < window then 1 else 0) + Lost(rs[1..], now, window)
  }

  lemma {:induction false} TrimSplits(rs: seq<Rec>, now: int, window: int)
    ensures Kept(Trim(rs, now, window)) == Live(Kept(rs), now, window) && All(Trim(rs, now, window)) == All(rs)
  {
    if rs != [] {
      TrimSplits(rs[1..], now, window);
      assert ([rs[0].at] + Kept(rs[1..]))[1..] == Kept(rs[1..]);
      assert [] + Kept(rs[1..]) == Kept(rs[1..]);
    }
  }

  lemma {:induction false} BurySplits(rs: seq<Rec>)
    ensures Kept(Bury(rs)) == [] && All(Bury(rs)) == All(rs)
  {
    if rs != [] { BurySplits(rs[1..]); }
  }

  lemma {:induction false} AppendSplits(rs: seq<Rec>, now: int)
    ensures Kept(rs + [Rec(now, false)]) == Kept(rs) + [now] && All(rs + [Rec(now, false)]) == All(rs) + [now]
  {
    if rs != [] {
      assert (rs + [Rec(now, false)])[1..] == rs[1..] + [Rec(now, false)];
      AppendSplits(rs[1..], now);
    }
  }

  lemma {:induction false} LostCounts(rs: seq<Rec>, now: int, window: int)
    ensures |Live(All(rs), now, window)| == |Live(Kept(rs), now, window)| + Lost(rs, now, window)
  {
    if rs != [] {
      LostCounts(rs[1..], now, window);
      assert ([rs[0].at] + All(rs[1..]))[1..] == All(rs[1..]);
      assert ([rs[0].at] + Kept(rs[1..]))[1..] == Kept(rs[1..]);
      assert [] + Kept(rs[1..]) == Kept(rs[1..]);
    }
  }

  /** A sweep drops every record of the keys it removes. */
  function Swept(h: History, e: Events, now: int, c: Config): History {
    if |e| <= MAX_KEYS then h
    else map k | k in h :: if k in e && Expired(e[k], now, c.window) then Bury(h[k]) else h[k]
  }

  function Noted(h: History, e: Events, call: Call, accepted: bool, c: Config): History {
    if call.Reset? then h - {call.k} else
    var s := Swept(h, e, call.now, c);
    s[call.k := Trim(RecsOf(s, call.k), call.now, c.window) + (if call.Allow? && accepted then [Rec(call.now, false)] else [])]
  }

  /** All accepted events since each key's last reset, and which of them the source has dropped. */
  function NotedRun(calls: seq<Call>, c: Config): History
    decreases |calls|
  {
    if calls == [] then map[]
    else
      var init, call := calls[..|calls| - 1], calls[|calls| - 1];
      Noted(NotedRun(init, c), FastRun(init, c).0, call, Full(FullRun(init, c).0, call, c).1, c)
  }

  predicate KeyTracked(e: Events, f: Events, h: History, k: Key) {
    TimesOf(e, k) == Kept(RecsOf(h, k)) && TimesOf(f, k) == All(RecsOf(h, k))
  }

  ghost predicate Tracked(e: Events, f: Events, h: History) {
    forall k {:trigger KeyTracked(e, f, h, k)} :: KeyTracked(e, f, h, k)
  }

  lemma SweptTracked(e: Events, f: Events, h: History, now: int, c: Config)
    requires Tracked(e, f, h)
    ensures Tracked(Prune(e, now, c), f, Swept(h, e, now, c))
  {
    forall k ensures KeyTracked(Prune(e, now, c), f, Swept(h, e, now, c), k) {
      assert KeyTracked(e, f, h, k);
      BurySplits(RecsOf(h, k));
    }
  }

  // ---------------------------------------------------------------- exactly when they agree

  /** The call is refused by the full history only because of records that have been dropped. */
  predicate Tips(h: History, e: Events, call: Call, c: Config) {
    !call.Reset? &&
    var rs := RecsOf(Swept(h, e, call.now, c), call.k);
    var all := |Live(All(rs), call.now, c.window)|;
    all - Lost(rs, call.now, c.window) < c.limit <= all
  }

  lemma StepAgreesIff(e: Events, f: Events, h: History, call: Call, c: Config)
    requires Tracked(e, f, h)
    ensures Fast(e, call, c).1 == Full(f, call, c).1 <==> !Tips(h, e, call, c)
    ensures Fast(e, call, c).1 == Full(f, call, c).1
            ==> Tracked(Fast(e, call, c).0, Full(f, call, c).0, Noted(h, e, call, Full(f, call, c).1, c))
  {
    if call.Reset? {
      forall k ensures KeyTracked(e - {call.k}, f - {call.k}, h - {call.k}, k) { assert KeyTracked(e, f, h, k); }
    } else {
      var p, s := Prune(e, call.now, c), Swept(h, e, call.now, c);
      SweptTracked(e, f, h, call.now, c);
      assert KeyTracked(p, f, s, call.k);
      var rs := RecsOf(s, call.k);
      LostCounts(rs, call.now, c.window);
      if Fast(e, call, c).1 == Full(f, call, c).1 {
        StoreTracked(e, f, h, call, c);
      }
    }
  }

  lemma StoreTracked(e: Events, f: Events, h: History, call: Call, c: Config)
    requires !call.Reset? && Fast(e, call, c).1 == Full(f, call, c).1
    requires Tracked(Prune(e, call.now, c), f, Swept(h, e, call.now, c))
    ensures Tracked(Fast(e, call, c).0, Full(f, call, c).0, Noted(h, e, call, Full(f, call, c).1, c))
  {
    var p, s := Prune(e, call.now, c), Swept(h, e, call.now, c);
    var e', f', h' := Fast(e, call, c).0, Full(f, call, c).0, Noted(h, e, call, Full(f, call, c).1, c);
    forall k ensures KeyTracked(e', f', h', k) {
      assert KeyTracked(p, f, s, k);
      if k == call.k {
        StoreOwnKey(e, f, h, call, c);
      } else {
        assert TimesOf(e', k) == TimesOf(p, k) && TimesOf(f', k) == TimesOf(f, k) && RecsOf(h', k) == RecsOf(s, k);
      }
    }
  }

  lemma StoreOwnKey(e: Events, f: Events, h: History, call: Call, c: Config)
    requires !call.Reset? && Fast(e, call, c).1 == Full(f, call, c).1
    requires KeyTracked(Prune(e, call.now, c), f, Swept(h, e, call.now, c), call.k)
    ensures KeyTracked(Fast(e, call, c).0, Full(f, call, c).0, Noted(h, e, call, Full(f, call, c).1, c), call.k)
  {
    var rs := RecsOf(Swept(h, e, call.now, c), call.k);
    var t := Trim(rs, call.now, c.window);
    TrimSplits(rs, call.now, c.window);
    AppendSplits(t, call.now);
    assert t + [] == t;
  }

  predicate NeverTips(calls: seq<Call>, c: Config)
    decreases |calls|
  {
    calls == [] ||
    var init := calls[..|calls| - 1];
    NeverTips(init, c) && !Tips(NotedRun(init, c), FastRun(init, c).0, calls[|calls| - 1], c)
  }

  /** Over every run, whatever the clock readings: the limiter decides every call exactly as one that
      never forgets, if and only if no call is at its limit only through records that earlier readings
      have dropped. */
  lemma {:induction false} DecidesLikeFullIff(calls: seq<Call>, c: Config)
    ensures FastRun(calls, c).1 == FullRun(calls, c).1 <==> NeverTips(calls, c)
    ensures NeverTips(calls, c) ==> Tracked(FastRun(calls, c).0, FullRun(calls, c).0, NotedRun(calls, c))
    decreases |calls|
  {
    if calls == [] {
      assert forall k :: KeyTracked(map[], map[], map[], k);
    } else {
      var init, call := calls[..|calls| - 1], calls[|calls| - 1];
      DecidesLikeFullIff(init, c);
      OneVerdictEach(init, c);
      assert FastRun(calls, c).1[..|init|] == FastRun(init, c).1 && FullRun(calls, c).1[..|init|] == FullRun(init, c).1;
      if NeverTips(init, c) {
        StepAgreesIff(FastRun(init, c).0, FullRun(init, c).0, NotedRun(init, c), call, c);
      }
    }
  }

  lemma {:induction false} OneVerdictEach(calls: seq<Call>, c: Config)
    ensures |FastRun(calls, c).1| == |FullRun(calls, c).1| == |calls|
    decreases |calls|
  {
    if calls != [] { OneVerdictEach(calls[..|calls| - 1], c); }
  }

  // ---------------------------------------------------------------- readings in order

  /** The call's reading can drop records of `k`: it is on `k`, or it sweeps. */
  predicate Reaches(init: seq<Call>, call: Call, k: Key, c: Config) {
    !call.Reset? && (call.k == k || |FastRun(init, c).0| > MAX_KEYS)
  }

  predicate Bounds(calls: seq<Call>, k: Key, t: int, c: Config)
    decreases |calls|
  {
    calls == [] ||
    var init, call := calls[..|calls| - 1], calls[|calls| - 1];
    Bounds(init, k, t, c) && (Reaches(init, call, k, c) ==> call.now <= t)
  }

  /** No reading is earlier than one served before it for the same key or in a sweep.  Calls for
      different keys may come in any order. */
  predicate Ordered(calls: seq<Call>, c: Config)
    decreases |calls|
  {
    calls == [] ||
    var init, call := calls[..|calls| - 1], calls[|calls| - 1];
    Ordered(init, c) && (call.Reset? || Bounds(init, call.k, call.now, c))
  }

  ghost predicate Sorted(ts: Times) {
    forall i, j | 0 <= i < j < |ts| :: ts[i] <= ts[j]
  }

  /** At reading `t`: nothing lies ahead, and nothing that was dropped is still needed. */
  predicate Safe(rs: seq<Rec>, t: int, window: int) {
    forall i | 0 <= i < |rs| :: rs[i].at <= t && (rs[i].gone ==> t - rs[i].at >= window)
  }

  ghost predicate InOrder(rs: seq<Rec>) {
    forall i, j | 0 <= i < j < |rs| :: rs[i].at <= rs[j].at
  }

  lemma {:induction false} SafeLosesNone(rs: seq<Rec>, t: int, window: int)
    requires Safe(rs, t, window)
    ensures Lost(rs, t, window) == 0
  {
    if rs != [] { SafeLosesNone(rs[1..], t, window); }
  }

  lemma {:induction false} TrimEach(rs: seq<Rec>, now: int, window: int)
    ensures var t := Trim(rs, now, window);
            |t| == |rs| && forall i | 0 <= i < |rs| :: t[i] == Rec(rs[i].at, rs[i].gone || now - rs[i].at >= window)
  {
    if rs != [] { TrimEach(rs[1..], now, window); }
  }

  lemma {:induction false} BuryEach(rs: seq<Rec>)
    ensures |Bury(rs)| == |rs| && forall i | 0 <= i < |rs| :: Bury(rs)[i] == Rec(rs[i].at, true)
  {
    if rs != [] { BuryEach(rs[1..]); }
  }

  lemma {:induction false} NoneKept(rs: seq<Rec>)
    requires Kept(rs) == []
    ensures forall i | 0 <= i < |rs| :: rs[i].gone
  {
    if rs != [] {
      NoneKept(rs[1..]);
      assert forall i | 1 <= i < |rs| :: rs[i] == rs[1..][i - 1];
    }
  }

  /** Where the last kept record stands: everything behind it is gone. */
  lemma {:induction false} LastKept(rs: seq<Rec>) returns (i: nat)
    requires Kept(rs) != []
    ensures i < |rs| && rs[i].at == Kept(rs)[|Kept(rs)| - 1] && forall j | i < j < |rs| :: rs[j].gone
    decreases |rs|
  {
    var rest := rs[1..];
    if Kept(rest) == [] {
      NoneKept(rest);
      i := 0;
    } else {
      i := LastKept(rest);
      i := i + 1;
    }
    assert forall j | 1 <= j < |rs| :: rs[j] == rest[j - 1];
  }

  /** On records in order, when the last one kept has expired, so have all. */
  lemma LastExpiredAll(rs: seq<Rec>, now: int, window: int)
    requires InOrder(rs) && Expired(Kept(rs), now, window)
    ensures forall i | 0 <= i < |rs| && !rs[i].gone :: now - rs[i].at >= window
  {
    if Kept(rs) == [] {
      NoneKept(rs);
    } else {
      var i := LastKeptExpired(rs, now, window);
      ExpiredUpTo(rs, i, now, window);
    }
  }

  lemma LastKeptExpired(rs: seq<Rec>, now: int, window: int) returns (i: nat)
    requires Kept(rs) != [] && Expired(Kept(rs), now, window)
    ensures i < |rs| && now - rs[i].at >= window && forall j | i < j < |rs| :: rs[j].gone
  {
    i := LastKept(rs);
  }

  lemma ExpiredUpTo(rs: seq<Rec>, i: nat, now: int, window: int)
    requires InOrder(rs) && i < |rs| && now - rs[i].at >= window && forall j | i < j < |rs| :: rs[j].gone
    ensures forall j | 0 <= j < |rs| && !rs[j].gone :: now - rs[j].at >= window
  {
    forall j | 0 <= j < |rs| && !rs[j].gone ensures now - rs[j].at >= window {
      if j < i { assert rs[j].at <= rs[i].at; }
    }
  }

  lemma SweptSafe(h: History, e: Events, k: Key, now: int, t: int, c: Config)
    requires TimesOf(e, k) == Kept(RecsOf(h, k)) && InOrder(RecsOf(h, k)) && Safe(RecsOf(h, k), t, c.window)
    requires |e| > MAX_KEYS ==> now <= t
    ensures InOrder(RecsOf(Swept(h, e, now, c), k)) && Safe(RecsOf(Swept(h, e, now, c), k), t, c.window)
  {
    var rs := RecsOf(h, k);
    BuryEach(rs);
    if |e| > MAX_KEYS && k in h && k in e && Expired(e[k], now, c.window) {
      LastExpiredAll(rs, now, c.window);
    }
  }

  /** Trimming at an earlier reading, and recording it, keeps records in order and safe. */
  lemma TrimSafe(rs: seq<Rec>, more: seq<Rec>, now: int, t: int, window: int)
    requires InOrder(rs) && Safe(rs, t, window) && Safe(rs, now, window) && now <= t
    requires more == [] || more == [Rec(now, false)]
    ensures InOrder(Trim(rs, now, window) + more) && Safe(Trim(rs, now, window) + more, t, window)
  {
    TrimEach(rs, now, window);
  }

  /** One call keeps a key's records in order and safe. */
  lemma NotedSafe(h: History, e: Events, call: Call, ok: bool, k: Key, t: int, c: Config)
    requires TimesOf(e, k) == Kept(RecsOf(h, k)) && InOrder(RecsOf(h, k)) && Safe(RecsOf(h, k), t, c.window)
    requires !call.Reset? && (|e| > MAX_KEYS || call.k == k ==> call.now <= t)
    requires call.k == k ==> Safe(RecsOf(h, k), call.now, c.window)
    ensures InOrder(RecsOf(Noted(h, e, call, ok, c), k)) && Safe(RecsOf(Noted(h, e, call, ok, c), k), t, c.window)
  {
    var s := Swept(h, e, call.now, c);
    SweptSafe(h, e, k, call.now, t, c);
    if call.k == k {
      SweptSafe(h, e, k, call.now, call.now, c);
      var more := if call.Allow? && ok then [Rec(call.now, false)] else [];
      TrimSafe(RecsOf(s, k), more, call.now, t, c.window);
      assert RecsOf(Noted(h, e, call, ok, c), k) == Trim(RecsOf(s, k), call.now, c.window) + more;
    } else {
      assert RecsOf(Noted(h, e, call, ok, c), k) == RecsOf(s, k);
    }
  }

  /** At every reading no earlier than those that reach the key, its records are safe. */
  lemma {:induction false} OrderedIsSafe(calls: seq<Call>, k: Key, t: int, c: Config)
    requires Ordered(calls, c) && Bounds(calls, k, t, c)
    ensures InOrder(RecsOf(NotedRun(calls, c), k)) && Safe(RecsOf(NotedRun(calls, c), k), t, c.window)
    decreases |calls|, 0
  {
    if calls != [] {
      var init, call := calls[..|calls| - 1], calls[|calls| - 1];
      OrderedIsSafe(init, k, t, c);
      if !call.Reset? {
        OrderedNeverTips(init, c);
        DecidesLikeFullIff(init, c);
        var h, e := NotedRun(init, c), FastRun(init, c).0;
        assert KeyTracked(e, FullRun(init, c).0, h, k);
        if call.k == k { OrderedIsSafe(init, k, call.now, c); }
        NotedSafe(h, e, call, Full(FullRun(init, c).0, call, c).1, k, t, c);
      }
    }
  }

  lemma {:induction false} OrderedNeverTips(calls: seq<Call>, c: Config)
    requires Ordered(calls, c)
    ensures NeverTips(calls, c)
    decreases |calls|, 1
  {
    if calls != [] {
      var init, call := calls[..|calls| - 1], calls[|calls| - 1];
      OrderedNeverTips(init, c);
      if !call.Reset? {
        DecidesLikeFullIff(init, c);
        OrderedIsSafe(init, call.k, call.now, c);
        var h, e := NotedRun(init, c), FastRun(init, c).0;
        assert KeyTracked(e, FullRun(init, c).0, h, call.k);
        SweptSafe(h, e, call.k, call.now, call.now, c);
        SafeLosesNone(RecsOf(Swept(h, e, call.now, c), call.k), call.now, c.window);
      }
    }
  }

  /** With readings in order for each key and in sweeps, the limiter decides every call of every run
      exactly as one that never forgets. */
  lemma FastDecidesLikeFull(calls: seq<Call>, c: Config)
    requires Ordered(calls, c)
    ensures FastRun(calls, c).1 == FullRun(calls, c).1
  {
    OrderedNeverTips(calls, c);
    DecidesLikeFullIff(calls, c);
  }

  /** The clock is read before the lock is taken, so two concurrent calls on one key can be served in
      the other order; then the later reading drops a record the earlier one still needs. */
  lemma OldReadingMisjudged(k: Key, c: Config, t: int)
    requires c.limit == 1 && c.window > 0
    ensures var calls := [Allow(k, t), Allowed(k, t + c.window), Allow(k, t + c.window - 1)];
            FastRun(calls, c).1 == [true, true, true] && FullRun(calls, c).1 == [true, true, false]
  {
    var c0, c1, c2 := Allow(k, t), Allowed(k, t + c.window), Allow(k, t + c.window - 1);
    FirstAccepted(k, t, c);
    OneMore([], c0, c);
    assert [] + [c0] == [c0] && [] + [true] == [true];
    OneMore([c0], c1, c);
    AskDrops(k, t, c);
    assert [c0] + [c1] == [c0, c1];
    OneMore([c0, c1], c2, c);
    LateIsLetIn(k, t, c);
    assert [c0, c1] + [c2] == [c0, c1, c2];
  }

  lemma AskDrops(k: Key, t: int, c: Config)
    requires c.limit == 1 && c.window > 0
    ensures Fast(map[k := [t]], Allowed(k, t + c.window), c) == (map[k := []], true)
    ensures Full(map[k := [t]], Allowed(k, t + c.window), c) == (map[k := [t]], true)
  {
    LiveOne(t, t + c.window, c.window);
    assert map[k := [t]][k := []] == map[k := []];
  }

  lemma LateIsLetIn(k: Key, t: int, c: Config)
    requires c.limit == 1 && c.window > 0
    ensures Fast(map[k := []], Allow(k, t + c.window - 1), c).1 && !Full(map[k := [t]], Allow(k, t + c.window - 1), c).1
  {
    LiveOne(t, t + c.window - 1, c.window);
  }

  lemma OneMore(calls: seq<Call>, call: Call, c: Config)
    ensures FastRun(calls + [call], c).0 == Fast(FastRun(calls, c).0, call, c).0
    ensures FastRun(calls + [call], c).1 == FastRun(calls, c).1 + [Fast(FastRun(calls, c).0, call, c).1]
    ensures FullRun(calls + [call], c).0 == Full(FullRun(calls, c).0, call, c).0
    ensures FullRun(calls + [call], c).1 == FullRun(calls, c).1 + [Full(FullRun(calls, c).0, call, c).1]
  {
    assert (calls + [call])[..|calls|] == calls;
  }

  lemma FirstAccepted(k: Key, t: int, c: Config)
    requires c.limit == 1
    ensures Fast(map[], Allow(k, t), c) == (map[k := [t]], true) == Full(map[], Allow(k, t), c)
  {
    assert Live([], t, c.window) + [t] == [t] && [] + [t] == [t];
    assert map[][k := [t]] == map[k := [t]];
  }

  lemma LiveOne(t: int, now: int, window: int)
    ensures Live([t], now, window) == if now - t < window then [t] else []
  {
    assert [t][1..] == [];
  }

  // ---------------------------------------------------------------- what is refused

  /** The readings of the accepted events of a key since its last reset. */
  function Accepted(calls: seq<Call>, vs: seq<bool>, k: Key): seq<int>
    requires |calls| == |vs|
    decreases |calls|
  {
    if calls == [] then []
    else
      var n := |calls| - 1;
      if calls[n] == Reset(k) then []
      else Accepted(calls[..n], vs[..n], k) + if calls[n].Allow? && calls[n].k == k && vs[n] then [calls[n].now] else []
  }

  /** How many of them are later than `t`. */
  function CountAfter(ts: seq<int>, t: int): nat {
    if ts == [] then 0 else CountAfter(ts[..|ts| - 1], t) + if ts[|ts| - 1] > t then 1 else 0
  }

  lemma {:induction false} AcceptedAreFull(calls: seq<Call>, k: Key, c: Config)
    ensures |FullRun(calls, c).1| == |calls| && TimesOf(FullRun(calls, c).0, k) == Accepted(calls, FullRun(calls, c).1, k)
    decreases |calls|
  {
    OneVerdictEach(calls, c);
    if calls != [] {
      var n := |calls| - 1;
      AcceptedAreFull(calls[..n], k, c);
      OneVerdictEach(calls[..n], c);
      assert FullRun(calls, c).1[..n] == FullRun(calls[..n], c).1;
      FullStep(FullRun(calls[..n], c).0, calls[n], k, c);
    }
  }

  lemma FullStep(h: Events, call: Call, k: Key, c: Config)
    ensures TimesOf(Full(h, call, c).0, k) ==
            if call == Reset(k) then [] else TimesOf(h, k) + if call.Allow? && call.k == k && Full(h, call, c).1 then [call.now] else []
  {
    assert TimesOf(h, k) + [] == TimesOf(h, k);
  }

  lemma {:induction false} LiveAppend(ts: Times, x: int, now: int, window: int)
    ensures Live(ts + [x], now, window) == Live(ts, now, window) + if now - x < window then [x] else []
  {
    if ts == [] {
      assert [] + [x] == [x] && [x][1..] == [];
    } else {
      assert (ts + [x])[0] == ts[0] && (ts + [x])[1..] == ts[1..] + [x];
      LiveAppend(ts[1..], x, now, window);
      Assoc(if now - ts[0] < window then [ts[0]] else [], Live(ts[1..], now, window), if now - x < window then [x] else []);
    }
  }

  lemma {:induction false} LiveCounts(ts: Times, now: int, window: int)
    ensures |Live(ts, now, window)| == CountAfter(ts, now - window)
    decreases |ts|
  {
    if ts != [] {
      var n := |ts| - 1;
      LiveCounts(ts[..n], now, window);
      LiveAppend(ts[..n], ts[n], now, window);
      assert ts == ts[..n] + [ts[n]];
    }
  }

  /** On runs that decide as the full history does, such as ordered ones: a call is refused exactly if as
      many events of its key as the limit have been accepted within the window before its reading. */
  lemma RefusedIffFull(calls: seq<Call>, call: Call, c: Config)
    requires NeverTips(calls + [call], c) && !call.Reset?
    ensures |FastRun(calls, c).1| == |calls|
    ensures FastRun(calls + [call], c).1 == FastRun(calls, c).1 +
              [CountAfter(Accepted(calls, FastRun(calls, c).1, call.k), call.now - c.window) < c.limit]
  {
    TipsPrefix(calls, call, c);
    DecidesLikeFullIff(calls, c);
    DecidesLikeFullIff(calls + [call], c);
    FullRefuses(calls, call, c);
  }

  lemma TipsPrefix(calls: seq<Call>, call: Call, c: Config)
    requires NeverTips(calls + [call], c)
    ensures NeverTips(calls, c)
  {
    assert (calls + [call])[..|calls|] == calls;
  }

  lemma FullRefuses(calls: seq<Call>, call: Call, c: Config)
    requires !call.Reset?
    ensures |FullRun(calls, c).1| == |calls|
    ensures FullRun(calls + [call], c).1 == FullRun(calls, c).1 +
              [CountAfter(Accepted(calls, FullRun(calls, c).1, call.k), call.now - c.window) < c.limit]
  {
    AcceptedAreFull(calls, call.k, c);
    FullOneMore(calls, call, c);
    FullVerdict(FullRun(calls, c).0, call, c);
  }

  lemma FullVerdict(h: Events, call: Call, c: Config)
    requires !call.Reset?
    ensures Full(h, call, c).1 <==> CountAfter(TimesOf(h, call.k), call.now - c.window) < c.limit
  {
    LiveCounts(TimesOf(h, call.k), call.now, c.window);
  }

  // ---------------------------------------------------------------- asking only

  /** The verdicts of further calls, from a given history. */
  function Verdicts(h: Events, b: seq<Call>, c: Config): seq<bool>
    decreases |b|
  {
    if b == [] then [] else [Full(h, b[0], c).1] + Verdicts(Full(h, b[0], c).0, b[1..], c)
  }

  lemma FullOneMore(calls: seq<Call>, call: Call, c: Config)
    ensures FullRun(calls + [call], c).0 == Full(FullRun(calls, c).0, call, c).0
    ensures FullRun(calls + [call], c).1 == FullRun(calls, c).1 + [Full(FullRun(calls, c).0, call, c).1]
  {
    assert (calls + [call])[..|calls|] == calls;
  }

  lemma {:induction false} RunSplits(a: seq<Call>, b: seq<Call>, c: Config)
    ensures FullRun(a + b, c).1 == FullRun(a, c).1 + Verdicts(FullRun(a, c).0, b, c)
    decreases |b|
  {
    if b == [] {
      assert a + b == a;
    } else {
      FullOneMore(a, b[0], c);
      RunSplits(a + [b[0]], b[1..], c);
      assert a + b == (a + [b[0]]) + b[1..];
      VerdictsStep(FullRun(a, c).1, FullRun(a, c).0, b, c);
    }
  }

  lemma VerdictsStep(vs: seq<bool>, h: Events, b: seq<Call>, c: Config)
    requires b != []
    ensures (vs + [Full(h, b[0], c).1]) + Verdicts(Full(h, b[0], c).0, b[1..], c) == vs + Verdicts(h, b, c)
  {
  }

  /** Asking records nothing.  From a run with an `Allowed` call that decides as the full history does,
      that call can be left out without changing any other decision exactly if what is left decides as
      the full history does, too: without the call's own sweep a later one may come at a bad moment. */
  lemma AskingChangesNothingIff(a: seq<Call>, q: Call, b: seq<Call>, c: Config)
    requires q.Allowed? && NeverTips(a + [q] + b, c)
    ensures var asked := FastRun(a + [q] + b, c).1;
            |asked| == |a| + 1 + |b| && (asked[..|a|] + asked[|a| + 1..] == FastRun(a + b, c).1 <==> NeverTips(a + b, c))
  {
    FullWithout(a, q, b, c);
    DecidesLikeFullIff(a + [q] + b, c);
    DecidesLikeFullIff(a + b, c);
  }

  /** For the full history the call never matters. */
  lemma FullWithout(a: seq<Call>, q: Call, b: seq<Call>, c: Config)
    requires q.Allowed?
    ensures var asked := FullRun(a + [q] + b, c).1;
            |asked| == |a| + 1 + |b| && asked[..|a|] + asked[|a| + 1..] == FullRun(a + b, c).1
  {
    FullOneMore(a, q, c);
    RunSplits(a + [q], b, c);
    RunSplits(a, b, c);
    OneVerdictEach(a, c);
    OneVerdictEach(a + [q] + b, c);
    SkipOne(FullRun(a, c).1, Full(FullRun(a, c).0, q, c).1, Verdicts(FullRun(a, c).0, b, c));
  }

  lemma SkipOne(x: seq<bool>, v: bool, y: seq<bool>)
    ensures (x + [v] + y)[..|x|] + (x + [v] + y)[|x| + 1..] == x + y
  {
  }

  predicate ReadingBound(calls: seq<Call>, t: int) {
    forall i | 0 <= i < |calls| :: calls[i].Reset? || calls[i].now <= t
  }

  /** Every call reads the clock no earlier than all calls before it. */
  predicate InSequence(calls: seq<Call>)
    decreases |calls|
  {
    calls == [] ||
    var init, call := calls[..|calls| - 1], calls[|calls| - 1];
    InSequence(init) && (call.Reset? || ReadingBound(init, call.now))
  }

  lemma {:induction false} InSequenceOrdered(calls: seq<Call>, c: Config)
    requires InSequence(calls)
    ensures Ordered(calls, c)
    decreases |calls|
  {
    if calls != [] {
      var init, call := calls[..|calls| - 1], calls[|calls| - 1];
      InSequenceOrdered(init, c);
      if !call.Reset? { BoundedBounds(init, call.k, call.now, c); }
    }
  }

  lemma {:induction false} BoundedBounds(calls: seq<Call>, k: Key, t: int, c: Config)
    requires ReadingBound(calls, t)
    ensures Bounds(calls, k, t, c)
    decreases |calls|
  {
    if calls != [] { BoundedBounds(calls[..|calls| - 1], k, t, c); }
  }

  lemma {:induction false} LeaveOut(a: seq<Call>, q: Call, b: seq<Call>)
    requires InSequence(a + [q] + b)
    ensures InSequence(a + b)
    decreases |b|
  {
    var calls := a + [q] + b;
    if b == [] {
      assert calls[..|a|] == a == a + b;
    } else {
      var n := |b| - 1;
      assert calls[..|a| + 1 + n] == a + [q] + b[..n] && (a + b)[..|a| + n] == a + b[..n];
      LeaveOut(a, q, b[..n]);
      assert forall i | 0 <= i < |a| + n :: (a + b[..n])[i] == (a + [q] + b[..n])[if i < |a| then i else i + 1];
    }
  }

  /** So on a run whose readings never go back an `Allowed` call changes no other decision. */
  lemma AskingChangesNothing(a: seq<Call>, q: Call, b: seq<Call>, c: Config)
    requires q.Allowed? && InSequence(a + [q] + b)
    ensures var asked := FastRun(a + [q] + b, c).1;
            |asked| == |a| + 1 + |b| && asked[..|a|] + asked[|a| + 1..] == FastRun(a + b, c).1
  {
    LeaveOut(a, q, b);
    InSequenceOrdered(a + [q] + b, c);
    InSequenceOrdered(a + b, c);
    OrderedNeverTips(a + [q] + b, c);
    OrderedNeverTips(a + b, c);
    AskingChangesNothingIff(a, q, b, c);
  }

  // ---------------------------------------------------------------- the window bound

  /** No `limit + 1` accepted events of one key lie within one window. */
  ghost predicate Spread(ts: Times, c: Config) {
    && (c.limit <= 0 ==> ts == [])
    && forall i, j | 0 <= i < j < |ts| && j == i + c.limit :: ts[j] - ts[i] >= c.window
  }

  /** On a sorted list everything after a live record is live. */
  lemma {:induction false} LiveTail(ts: Times, i: nat, now: int, window: int)
    requires Sorted(ts) && i < |ts| && now - ts[i] < window
    ensures |Live(ts, now, window)| >= |ts| - i
    decreases |ts|
  {
    if i > 0 {
      LiveTail(ts[1..], i - 1, now, window);
    } else if |ts| > 1 {
      assert ts[0] <= ts[1];
      LiveTail(ts[1..], 0, now, window);
    }
  }

  lemma SpreadStep(ts: Times, now: int, c: Config)
    requires Sorted(ts) && Spread(ts, c) && |Live(ts, now, c.window)| < c.limit
    ensures Spread(ts + [now], c)
  {
    var i := |ts| - c.limit;
    if i >= 0 && now - ts[i] < c.window {
      LiveTail(ts, i, now, c.window);
    }
  }

  lemma {:induction false} AllEach(rs: seq<Rec>)
    ensures |All(rs)| == |rs| && forall i | 0 <= i < |rs| :: All(rs)[i] == rs[i].at
  {
    if rs != [] { AllEach(rs[1..]); }
  }

  /** Over every run with readings in order, since a key's last reset at most `limit` of the events
      that the limiter accepted lie in any window. */
  lemma {:induction false} WindowBound(calls: seq<Call>, k: Key, c: Config)
    requires Ordered(calls, c)
    ensures FastRun(calls, c).1 == FullRun(calls, c).1 && Spread(TimesOf(FullRun(calls, c).0, k), c)
    decreases |calls|
  {
    FastDecidesLikeFull(calls, c);
    if calls != [] {
      var init, call := calls[..|calls| - 1], calls[|calls| - 1];
      WindowBound(init, k, c);
      var f := FullRun(init, c).0;
      if call.Allow? && call.k == k && |Live(TimesOf(f, k), call.now, c.window)| < c.limit {
        OrderedNeverTips(init, c);
        DecidesLikeFullIff(init, c);
        OrderedIsSafe(init, k, call.now, c);
        assert KeyTracked(FastRun(init, c).0, f, NotedRun(init, c), k);
        AllEach(RecsOf(NotedRun(init, c), k));
        SpreadStep(TimesOf(f, k), call.now, c);
      }
    }
  }

  // ---------------------------------------------------------------- the object

  lemma LiveStep(done: Times, rest: Times, now: int, window: int)
    requires rest != []
    ensures done + Live(rest, now, window) ==
            (if now - rest[0] < window then done + [rest[0]] else done) + Live(rest[1..], now, window)
  {
  }

  /** `trimLocked` filters a slice over its own backing array: the write position never passes the
      read position. */
  method TrimInPlace(a: array<int>, now: int, window: int) returns (n: nat)
    modifies a
    ensures n <= a.Length && a[..n] == Live(old(a[..]), now, window)
  {
    n := 0;
    var i := 0;
    while i < a.Length
      invariant n <= i <= a.Length
      invariant a[i..] == old(a[..])[i..]
      invariant Live(old(a[..]), now, window) == a[..n] + Live(a[i..], now, window)
    {
      LiveStep(a[..n], a[i..], now, window);
      assert a[i..][1..] == a[i + 1..];
      var t := a[i];
      if now - t < window {
        ghost var front, rest := a[..n], a[i + 1..];
        a[n] := t;
        assert a[..n + 1] == front + [t] && a[i + 1..] == rest;
        n := n + 1;
      }
      i := i + 1;
    }
  }

  function Last(ts: Times): int
    requires ts != []
  {
    ts[|ts| - 1]
  }

  lemma {:induction false} LiveInside(ts: Times, now: int, window: int)
    ensures forall i | 0 <= i < |Live(ts, now, window)| :: now - Live(ts, now, window)[i] < window
  {
    if ts != [] { LiveInside(ts[1..], now, window); }
  }

  class RateLimiter {
    var events: Events
    const c: Config

    constructor (limit: int, window: int)
      ensures events == map[] && c == Config(limit, window)
    {
      events, c := map[], Config(limit, window);
    }

    method PruneLocked(now: int)
      modifies this
      ensures events == Prune(old(events), now, c)
      ensures forall k :: k in events <==>
                k in old(events) && (|old(events)| <= 8192 || (old(events)[k] != [] && now - Last(old(events)[k]) < c.window))
      ensures forall k | k in events :: events[k] == old(events)[k]
    {
      if |events| <= MAX_KEYS {
        return;
      }
      var todo := events.Keys;
      while todo != {}
        invariant todo <= old(events).Keys
        invariant events == map k | k in old(events) && (k in todo || !Expired(old(events)[k], now, c.window)) :: old(events)[k]
        decreases todo
      {
        var k :| k in todo;
        var times := events[k];
        if |times| == 0 || now - times[|times| - 1] >= c.window {
          events := events - {k};
        }
        todo := todo - {k};
      }
    }

    method TrimLocked(k: Key, now: int) returns (times: Times)
      ensures times == Live(TimesOf(events, k), now, c.window)
      ensures forall i | 0 <= i < |times| :: now - times[i] < c.window
    {
      LiveInside(TimesOf(events, k), now, c.window);
      var src := if k in events then events[k] else [];
      var a := new int[|src|](i requires 0 <= i < |src| => src[i]);
      assert a[..] == src;
      var n := TrimInPlace(a, now, c.window);
      times := a[..n];
    }

    method AllowCall(k: Key, now: int) returns (ok: bool)
      modifies this
      ensures (events, ok) == Fast(old(events), Allow(k, now), c)
      // only an accepted event is recorded; what else is kept of the key is inside the window
      ensures k in events && (if ok then |events[k]| <= c.limit && events[k] != [] && Last(events[k]) == now else |events[k]| >= c.limit)
      ensures forall i | 0 <= i < |events[k]| - (if ok then 1 else 0) :: now - events[k][i] < c.window
    {
      PruneLocked(now);
      var times := TrimLocked(k, now);
      if |times| >= c.limit {
        events := events[k := times];
        return false;
      }
      events := events[k := times + [now]];
      return true;
    }

    method AllowedCall(k: Key, now: int) returns (ok: bool)
      modifies this
      ensures (events, ok) == Fast(old(events), Allowed(k, now), c)
      ensures k in events && (ok <==> |events[k]| < c.limit) && forall i | 0 <= i < |events[k]| :: now - events[k][i] < c.window
    {
      PruneLocked(now);
      var times := TrimLocked(k, now);
      events := events[k := times];
      ok := |times| < c.limit;
    }

    method ResetKey(k: Key)
      modifies this
      ensures events == Fast(old(events), Reset(k), c).0 && events == old(events) - {k}
    {
      events := events - {k};
    }
  }
}
