/** The connection log (internal/storage/acl.go:113-198, 299-337): one bucket per user, rows in key
    order; listing merges the buckets newest first, trimming drops the oldest.  A row's key is its
    fixed-length time-prefixed byte string read as one number. */
module ConnLog {
  import opened Prelude

  datatype Row = Row(key: int, decodes: bool, body: string)
  /** One user's bucket, oldest row first. */
  type Bucket = seq<Row>
  datatype UserLog = UserLog(user: UserId, rows: Bucket)

  ghost predicate Ascending(b: Bucket) {
    forall i, j | 0 <= i < j < |b| :: b[i].key < b[j].key
  }

  ghost predicate Descending(s: seq<Row>) {
    forall i, j | 0 <= i < j < |s| :: s[i].key >= s[j].key
  }

  // ---------------------------------------------------------------- the merge

  function Last(b: Bucket): Row
    requires b != []
  {
    b[|b| - 1]
  }

  function Size(bs: seq<Bucket>): nat {
    if bs == [] then 0 else |bs[0]| + Size(bs[1..])
  }

  /** The first bucket holding the largest remaining key; `|bs|` when all are used up. */
  function Top(bs: seq<Bucket>): (i: nat)
    ensures i <= |bs|
    ensures i < |bs| ==> bs[i] != [] && forall j | 0 <= j < |bs| && bs[j] != [] :: Last(bs[j]).key <= Last(bs[i]).key
    ensures i == |bs| ==> forall j | 0 <= j < |bs| :: bs[j] == []
    ensures forall j | 0 <= j < i < |bs| && bs[j] != [] :: Last(bs[j]).key < Last(bs[i]).key
  {
    if bs == [] then 0
    else
      var k := Top(bs[1..]);
      if bs[0] != [] && (k == |bs| - 1 || Last(bs[0]).key >= Last(bs[k + 1]).key) then 0 else k + 1
  }

  function Pop(bs: seq<Bucket>, i: nat): seq<Bucket>
    requires i < |bs| && bs[i] != []
  {
    bs[i := bs[i][..|bs[i]| - 1]]
  }

  lemma {:induction false} PopSize(bs: seq<Bucket>, i: nat)
    requires i < |bs| && bs[i] != []
    ensures Size(Pop(bs, i)) == Size(bs) - 1
    decreases |bs|
  {
    if i > 0 {
      assert Pop(bs, i)[1..] == Pop(bs[1..], i - 1);
      PopSize(bs[1..], i - 1);
    }
  }

  /** All rows of all buckets, newest first. */
  function Merge(bs: seq<Bucket>): seq<Row>
    decreases Size(bs)
  {
    var i := Top(bs);
    if i == |bs| then [] else
    PopSize(bs, i);
    [Last(bs[i])] + Merge(Pop(bs, i))
  }

  function Rows(bs: seq<Bucket>): multiset<Row> {
    if bs == [] then multiset{} else multiset(bs[0]) + Rows(bs[1..])
  }

  lemma {:induction false} PopRows(bs: seq<Bucket>, i: nat)
    requires i < |bs| && bs[i] != []
    ensures Rows(bs) == Rows(Pop(bs, i)) + multiset{Last(bs[i])}
    decreases |bs|
  {
    if i == 0 {
      assert bs[0] == bs[0][..|bs[0]| - 1] + [Last(bs[0])];
    } else {
      assert Pop(bs, i)[1..] == Pop(bs[1..], i - 1);
      PopRows(bs[1..], i - 1);
    }
  }

  lemma {:induction false} EmptyRows(bs: seq<Bucket>)
    requires forall j | 0 <= j < |bs| :: bs[j] == []
    ensures Rows(bs) == multiset{} && Size(bs) == 0
    decreases |bs|
  {
    if bs != [] {
      EmptyRows(bs[1..]);
    }
  }

  /** The merge loses nothing, adds nothing, and its length is the reported total. */
  lemma {:induction false} MergeKeepsRows(bs: seq<Bucket>)
    ensures multiset(Merge(bs)) == Rows(bs) && |Merge(bs)| == Size(bs)
    decreases Size(bs)
  {
    var i := Top(bs);
    if i == |bs| {
      EmptyRows(bs);
    } else {
      PopSize(bs, i);
      PopRows(bs, i);
      MergeKeepsRows(Pop(bs, i));
    }
  }

  ghost predicate AllAscending(bs: seq<Bucket>) {
    forall i | 0 <= i < |bs| :: Ascending(bs[i])
  }

  ghost predicate AllBelow(bs: seq<Bucket>, key: int) {
    forall i | 0 <= i < |bs| && bs[i] != [] :: Last(bs[i]).key <= key
  }

  lemma PopBelow(bs: seq<Bucket>, i: nat)
    requires AllAscending(bs) && i == Top(bs) && i < |bs|
    ensures AllAscending(Pop(bs, i)) && AllBelow(Pop(bs, i), Last(bs[i]).key)
  {
    var ps := Pop(bs, i);
    forall j | 0 <= j < |ps| ensures Ascending(ps[j]) && (ps[j] != [] ==> Last(ps[j]).key <= Last(bs[i]).key) {
      assert Ascending(bs[j]);
    }
  }

  /** The merge is in descending key order. */
  lemma {:induction false} MergeDescends(bs: seq<Bucket>, key: int)
    requires AllAscending(bs) && AllBelow(bs, key)
    ensures Descending(Merge(bs)) && forall k | 0 <= k < |Merge(bs)| :: Merge(bs)[k].key <= key
    decreases Size(bs)
  {
    var i := Top(bs);
    if i < |bs| {
      PopSize(bs, i);
      PopBelow(bs, i);
      MergeDescends(Pop(bs, i), Last(bs[i]).key);
      FrontDescends(Last(bs[i]), Merge(Pop(bs, i)), key);
    }
  }

  lemma FrontDescends(x: Row, rest: seq<Row>, key: int)
    requires Descending(rest) && x.key <= key && forall k | 0 <= k < |rest| :: rest[k].key <= x.key
    ensures Descending([x] + rest) && forall k | 0 <= k < |[x] + rest| :: ([x] + rest)[k].key <= key
  {
    var s := [x] + rest;
    forall i, j | 0 <= i < j < |s| ensures s[i].key >= s[j].key {
      assert s[j] == rest[j - 1];
      if i > 0 { assert s[i] == rest[i - 1]; }
    }
  }

  ghost predicate DistinctKeys(rows: multiset<Row>) {
    forall x, y | x in rows && y in rows && x.key == y.key :: x == y
  }

  /** When keys are distinct, that pins the merge down: it is the only such list. */
  lemma {:induction false} DescendingUnique(s: seq<Row>, t: seq<Row>)
    requires multiset(s) == multiset(t) && Descending(s) && Descending(t) && DistinctKeys(multiset(s))
    ensures s == t
    decreases |s|
  {
    NoRows(t);
    if s != [] {
      HeadsAgree(s, t);
      TailsMatch(s, t);
      DescendingUnique(s[1..], t[1..]);
      Rejoin(s, t);
    }
  }

  lemma Rejoin(s: seq<Row>, t: seq<Row>)
    requires s != [] && t != [] && s[0] == t[0] && s[1..] == t[1..]
    ensures s == t
  {
    assert s == [s[0]] + s[1..] && t == [t[0]] + t[1..];
  }

  lemma NoRows(t: seq<Row>)
    ensures multiset(t) == multiset{} ==> t == []
  {
    if t != [] {
      assert t[0] in multiset(t);
    }
  }

  lemma TailsMatch(s: seq<Row>, t: seq<Row>)
    requires s != [] && t != [] && s[0] == t[0]
    requires multiset(s) == multiset(t) && Descending(s) && Descending(t) && DistinctKeys(multiset(s))
    ensures multiset(s[1..]) == multiset(t[1..]) && Descending(s[1..]) && Descending(t[1..]) && DistinctKeys(multiset(s[1..]))
  {
    TailRows(s);
    TailRows(t);
  }

  lemma TailRows(s: seq<Row>)
    requires s != [] && Descending(s)
    ensures multiset(s[1..]) == multiset(s) - multiset{s[0]} && Descending(s[1..])
    ensures DistinctKeys(multiset(s)) ==> DistinctKeys(multiset(s[1..]))
  {
    assert s == [s[0]] + s[1..];
    assert forall x | x in multiset(s[1..]) :: x in multiset(s);
  }

  lemma HeadsAgree(s: seq<Row>, t: seq<Row>)
    requires s != [] && multiset(s) == multiset(t) && Descending(s) && Descending(t) && DistinctKeys(multiset(s))
    ensures t != [] && s[0] == t[0]
  {
    assert s[0] in multiset(t);
    HeadIsMax(t, s[0]);
    assert t[0] in multiset(s);
    HeadIsMax(s, t[0]);
  }

  lemma HeadIsMax(s: seq<Row>, x: Row)
    requires Descending(s) && x in multiset(s)
    ensures s != [] && x.key <= s[0].key
  {
    var i :| 0 <= i < |s| && s[i] == x;
  }

  // ---------------------------------------------------------------- pages

  /** The rows that decode. */
  function Good(s: seq<Row>): seq<Row> {
    if s == [] then [] else (if s[0].decodes then [s[0]] else []) + Good(s[1..])
  }

  function Take(s: seq<Row>, n: nat): seq<Row> { if n <= |s| then s[..n] else s }

  function Drop(s: seq<Row>, n: nat): seq<Row> { if n <= |s| then s[n..] else [] }

  /** A page: `offset` counts all rows, `limit` only the rows that decode. */
  function Page(m: seq<Row>, offset: nat, limit: nat): seq<Row> {
    Take(Good(Drop(m, offset)), limit)
  }

  function ClampLimit(limit: int): (r: nat)
    ensures 1 <= r <= 1000 && (1 <= limit <= 1000 ==> r == limit)
  {
    if limit <= 0 then 100 else if limit > 1000 then 1000 else limit
  }

  function ClampOffset(offset: int): nat {
    if offset < 0 then 0 else offset
  }

  lemma {:induction false} GoodAppend(s: seq<Row>, t: seq<Row>)
    ensures Good(s + t) == Good(s) + Good(t)
    decreases |s|
  {
    if s == [] {
      assert s + t == t;
    } else {
      assert (s + t)[0] == s[0] && (s + t)[1..] == s[1..] + t;
      GoodAppend(s[1..], t);
      var head := if s[0].decodes then [s[0]] else [];
      assert Good(s) == head + Good(s[1..]) && Good(s + t) == head + Good(s[1..] + t);
      assert head + (Good(s[1..]) + Good(t)) == (head + Good(s[1..])) + Good(t);
    }
  }

  lemma {:induction false} GoodSize(s: seq<Row>)
    ensures |Good(s)| <= |s| && (|Good(s)| == |s| <==> forall i | 0 <= i < |s| :: s[i].decodes)
    decreases |s|
  {
    if s != [] {
      GoodSize(s[1..]);
    }
  }

  /** The rows of the `k`-th page's own window. */
  function Window(m: seq<Row>, offset: nat, limit: nat): seq<Row> {
    Take(Drop(m, offset), limit)
  }

  ghost predicate Clean(m: seq<Row>, offset: nat, limit: nat) {
    || (forall i | 0 <= i < |Window(m, offset, limit)| :: Window(m, offset, limit)[i].decodes)
    || Good(Drop(m, offset + limit)) == []
  }

  /** A page shows exactly the readable rows of its window if and only if every row there decodes
      or no readable row follows; otherwise it runs on into the next page's rows. */
  lemma PageIsWindowIff(m: seq<Row>, offset: nat, limit: nat)
    ensures Good(Window(m, offset, limit)) <= Page(m, offset, limit)
    ensures Page(m, offset, limit) == Good(Window(m, offset, limit)) <==> Clean(m, offset, limit)
  {
    var d := Drop(m, offset);
    var w := Window(m, offset, limit);
    var rest := Drop(m, offset + limit);
    assert d == w + rest;
    GoodAppend(w, rest);
    GoodSize(w);
  }

  /** Pages `0`, `limit`, `2 * limit`, … as a client fetches them, until the whole log is passed. */
  function AllPages(m: seq<Row>, offset: nat, limit: nat): seq<Row>
    requires limit > 0
    decreases if offset <= |m| then |m| - offset else 0
  {
    if offset >= |m| then [] else Page(m, offset, limit) + AllPages(m, offset + limit, limit)
  }

  ghost predicate AllClean(m: seq<Row>, offset: nat, limit: nat)
    requires limit > 0
    decreases if offset <= |m| then |m| - offset else 0
  {
    offset >= |m| || (Clean(m, offset, limit) && AllClean(m, offset + limit, limit))
  }

  /** Consecutive pages put together are the whole log without gap or repeat if and only if every
      page's window is clean. */
  lemma {:induction false} PagesCoverIff(m: seq<Row>, offset: nat, limit: nat)
    requires limit > 0
    ensures |AllPages(m, offset, limit)| >= |Good(Drop(m, offset))|
    ensures AllPages(m, offset, limit) == Good(Drop(m, offset)) <==> AllClean(m, offset, limit)
    decreases if offset <= |m| then |m| - offset else 0
  {
    if offset < |m| {
      PagesCoverIff(m, offset + limit, limit);
      PagesStep(m, offset, limit, AllPages(m, offset + limit, limit));
    } else {
      assert Drop(m, offset) == [];
    }
  }

  lemma PagesStep(m: seq<Row>, offset: nat, limit: nat, later: seq<Row>)
    requires |later| >= |Good(Drop(m, offset + limit))|
    ensures |Page(m, offset, limit) + later| >= |Good(Drop(m, offset))|
    ensures Page(m, offset, limit) + later == Good(Drop(m, offset))
       <==> Clean(m, offset, limit) && later == Good(Drop(m, offset + limit))
  {
    PageIsWindowIff(m, offset, limit);
    var w, rest := Window(m, offset, limit), Drop(m, offset + limit);
    assert Drop(m, offset) == w + rest;
    GoodAppend(w, rest);
    ConcatIff(Page(m, offset, limit), Good(w), later, Good(rest));
  }

  lemma ConcatIff(a: seq<Row>, w: seq<Row>, b: seq<Row>, g: seq<Row>)
    requires w <= a && |b| >= |g|
    ensures a + b == w + g <==> a == w && b == g
  {
    if a + b == w + g {
      assert |a| == |w|;
      assert (a + b)[|a|..] == b && (w + g)[|w|..] == g;
    }
  }

  // ---------------------------------------------------------------- listing

  /** `logs` are the first `limit` readable rows of `m` from `offset` on, in order: the rows at some places,
      between which nothing readable is left out, and fewer only if nothing readable follows. */
  ghost predicate Shows(logs: seq<Row>, m: seq<Row>, offset: nat, limit: nat) {
    && |logs| <= limit
    && exists at: seq<nat> :: |at| == |logs| && ShowsAt(logs, m, offset, limit, at)
  }

  ghost predicate ShowsAt(logs: seq<Row>, m: seq<Row>, offset: nat, limit: nat, at: seq<nat>)
    requires |at| == |logs|
  {
    && RowsAt(m, offset, at, logs) && Rising(at)
    && forall q | offset <= q < |m| && m[q].decodes :: q in at || (|logs| == limit && (at == [] || q > at[|at| - 1]))
  }

  /** The readable rows at these places. */
  predicate RowsAt(m: seq<Row>, offset: nat, at: seq<nat>, g: seq<Row>)
    requires |at| == |g|
  {
    forall k | 0 <= k < |at| :: offset <= at[k] < |m| && m[at[k]] == g[k] && g[k].decodes
  }

  ghost predicate Rising(at: seq<nat>) { forall i, j | 0 <= i < j < |at| :: at[i] < at[j] }

  /** All places of readable rows from `p` on, and those rows. */
  ghost predicate AllAt(m: seq<Row>, p: nat, at: seq<nat>, g: seq<Row>) {
    && |at| == |g| && RowsAt(m, p, at, g) && Rising(at)
    && forall q | p <= q < |m| && m[q].decodes :: q in at
  }

  lemma RowsAtCons(m: seq<Row>, p: nat, at: seq<nat>, g: seq<Row>)
    requires p < |m| && m[p].decodes && |at| == |g| && RowsAt(m, p + 1, at, g)
    ensures RowsAt(m, p, [p] + at, [m[p]] + g)
  {
    forall k | 0 <= k < |at| + 1
      ensures var q := ([p] + at)[k]; p <= q < |m| && m[q] == ([m[p]] + g)[k] && ([m[p]] + g)[k].decodes
    {
      if k > 0 { assert ([p] + at)[k] == at[k - 1] && ([m[p]] + g)[k] == g[k - 1]; }
    }
  }

  lemma RisingCons(p: nat, at: seq<nat>)
    requires Rising(at) && forall k | 0 <= k < |at| :: p < at[k]
    ensures Rising([p] + at)
  {
    forall i, j | 0 <= i < j < |at| + 1 ensures ([p] + at)[i] < ([p] + at)[j] {
      assert ([p] + at)[j] == at[j - 1];
      if i > 0 { assert ([p] + at)[i] == at[i - 1]; }
    }
  }

  lemma AllAtCons(m: seq<Row>, p: nat, at: seq<nat>, g: seq<Row>)
    requires p < |m| && m[p].decodes && AllAt(m, p + 1, at, g)
    ensures AllAt(m, p, [p] + at, [m[p]] + g)
  {
    RowsAtCons(m, p, at, g);
    RisingCons(p, at);
    forall q | p <= q < |m| && m[q].decodes ensures q in [p] + at {
      if q == p { assert ([p] + at)[0] == p; } else { InCons(q, p, at); }
    }
  }

  lemma InCons(q: nat, p: nat, at: seq<nat>)
    requires q in at
    ensures q in [p] + at
  {
    var k :| 0 <= k < |at| && at[k] == q;
    assert ([p] + at)[k + 1] == q;
  }

  lemma AllAtSkip(m: seq<Row>, p: nat, at: seq<nat>, g: seq<Row>)
    requires p < |m| && !m[p].decodes && AllAt(m, p + 1, at, g)
    ensures AllAt(m, p, at, g)
  {
  }

  lemma GoodFrom(m: seq<Row>, p: nat)
    requires p < |m|
    ensures Good(m[p..]) == if m[p].decodes then [m[p]] + Good(m[p + 1..]) else Good(m[p + 1..])
  {
    assert m[p..][0] == m[p] && m[p..][1..] == m[p + 1..];
  }

  lemma {:induction false} PlacesAre(m: seq<Row>, p: nat) returns (at: seq<nat>)
    requires p <= |m|
    ensures AllAt(m, p, at, Good(m[p..]))
    decreases |m| - p
  {
    if p == |m| {
      at := [];
    } else {
      at := PlacesAre(m, p + 1);
      GoodFrom(m, p);
      if m[p].decodes {
        AllAtCons(m, p, at, Good(m[p + 1..]));
        at := [p] + at;
      } else {
        AllAtSkip(m, p, at, Good(m[p + 1..]));
      }
    }
  }

  lemma FirstOnes(m: seq<Row>, p: nat, at: seq<nat>, g: seq<Row>, n: nat, limit: nat)
    requires AllAt(m, p, at, g) && n <= |at| && n <= limit && (n == limit || n == |at|)
    ensures ShowsAt(g[..n], m, p, limit, at[..n])
  {
    var first := at[..n];
    forall q | p <= q < |m| && m[q].decodes ensures q in first || (n == limit && (first == [] || q > first[n - 1])) {
      var k :| 0 <= k < |at| && at[k] == q;
      if k < n { assert first[k] == q; }
    }
  }

  lemma PageShows(m: seq<Row>, offset: nat, limit: nat)
    ensures Shows(Page(m, offset, limit), m, offset, limit)
  {
    var logs := Page(m, offset, limit);
    if offset > |m| {
      assert logs == [] && ShowsAt(logs, m, offset, limit, []);
    } else {
      var at := PlacesAre(m, offset);
      var g := Good(m[offset..]);
      FirstOnes(m, offset, at, g, |logs|, limit);
      assert logs == g[..|logs|];
    }
  }

  /** All buckets in order, or the one of the user asked for. */
  lemma {:induction false} SelectedAll(store: seq<UserLog>)
    ensures |Selected(store, None)| == |store| && forall i | 0 <= i < |store| :: Selected(store, None)[i] == store[i].rows
  {
    if store != [] { SelectedAll(store[1..]); }
  }

  lemma {:induction false} SelectedOne(store: seq<UserLog>, u: UserId)
    requires forall i, j | 0 <= i < j < |store| :: store[i].user != store[j].user
    ensures forall i | 0 <= i < |store| && store[i].user == u :: Selected(store, Some(u)) == [store[i].rows]
    ensures (forall i | 0 <= i < |store| :: store[i].user != u) ==> Selected(store, Some(u)) == []
  {
    if store != [] {
      SelectedOne(store[1..], u);
      assert forall i | 1 <= i < |store| :: store[i] == store[1..][i - 1];
    }
  }

  /** One user's bucket, or all of them in name order. */
  function Selected(store: seq<UserLog>, user: Option<UserId>): seq<Bucket> {
    if store == [] then []
    else
      (if user.None? || store[0].user == user.value then [store[0].rows] else []) + Selected(store[1..], user)
  }

  lemma PageStep(m: seq<Row>, offset: nat, limit: nat)
    requires m != [] && limit > 0
    ensures offset > 0 ==> Page(m, offset, limit) == Page(m[1..], offset - 1, limit)
    ensures offset == 0 && !m[0].decodes ==> Page(m, 0, limit) == Page(m[1..], 0, limit)
    ensures offset == 0 && m[0].decodes ==> Page(m, 0, limit) == [m[0]] + Page(m[1..], 0, limit - 1)
  {
    if offset > 0 {
      assert Drop(m, offset) == Drop(m[1..], offset - 1);
    } else {
      assert Drop(m, 0) == m && Drop(m[1..], 0) == m[1..];
    }
  }

  method FindTop(bs: seq<Bucket>) returns (top: nat)
    ensures top == Top(bs)
  {
    top := |bs|;
    var i := 0;
    while i < |bs|
      invariant i <= |bs| && (top < i || top == |bs|)
      invariant top == |bs| ==> forall j | 0 <= j < i :: bs[j] == []
      invariant top < |bs| ==> bs[top] != [] && forall j | 0 <= j < i && bs[j] != [] :: Last(bs[j]).key <= Last(bs[top]).key
      invariant top < |bs| ==> forall j | 0 <= j < top && bs[j] != [] :: Last(bs[j]).key < Last(bs[top]).key
    {
      if bs[i] != [] && (top == |bs| || Last(bs[i]).key > Last(bs[top]).key) {
        top := i;
      }
      i := i + 1;
    }
  }

  lemma SelectStep(store: seq<UserLog>, i: nat, user: Option<UserId>, bs: seq<Bucket>)
    requires i < |store|
    ensures bs + Selected(store[i..], user) ==
            (if user.None? || store[i].user == user.value then bs + [store[i].rows] else bs) + Selected(store[i + 1..], user)
  {
    SuffixStep(store, i);
    var rest := Selected(store[i + 1..], user);
    assert store[i..][0] == store[i] && store[i..][1..] == store[i + 1..];
    Assoc(bs, [store[i].rows], rest);
    assert [] + rest == rest;
  }

  /** Collect the cursors, adding up the bucket sizes. */
  method Select(store: seq<UserLog>, user: Option<UserId>) returns (bs: seq<Bucket>, total: nat)
    ensures bs == Selected(store, user) && total == Size(bs)
  {
    bs, total := [], 0;
    var i := 0;
    while i < |store|
      invariant i <= |store| && Selected(store, user) == bs + Selected(store[i..], user) && total == Size(bs)
    {
      SelectStep(store, i, user, bs);
      if user.None? || store[i].user == user.value {
        SizeAppend(bs, store[i].rows);
        bs := bs + [store[i].rows];
        total := total + |store[i].rows|;
      }
      i := i + 1;
    }
  }

  /** `ListConnLogs`. */
  method ListConnLogs(store: seq<UserLog>, user: Option<UserId>, offset: int, limit: int) returns (logs: seq<Row>, total: nat)
    ensures logs == Page(Merge(Selected(store, user)), ClampOffset(offset), ClampLimit(limit))
    ensures total == |Merge(Selected(store, user))|
    // in numbers: 100 rows if no limit is given, never more than 1000, from the first row on if the offset is negative
    ensures Shows(logs, Merge(Selected(store, user)), if offset < 0 then 0 else offset,
                  if limit <= 0 then 100 else if limit > 1000 then 1000 else limit)
  {
    var bs;
    bs, total := Select(store, user);
    MergeKeepsRows(bs);
    logs := Collect(bs, ClampOffset(offset), ClampLimit(limit));
    PageShows(Merge(bs), ClampOffset(offset), ClampLimit(limit));
  }

  /** The merge loop. */
  method Collect(buckets: seq<Bucket>, offset: nat, room: nat) returns (logs: seq<Row>)
    ensures logs == Page(Merge(buckets), offset, room)
  {
    var bs, skip := buckets, offset;
    ghost var rest := Merge(buckets);
    ghost var want := Page(rest, offset, room);
    logs := [];
    while |logs| < room
      invariant 0 <= skip && rest == Merge(bs) && Owes(want, logs, rest, skip, room)
      decreases Size(bs)
    {
      var top := FindTop(bs);
      MergeStep(bs, top);
      if top == |bs| {
        OwesNothing(want, logs, rest, skip, room);
        return;
      }
      bs, skip, logs, rest := ShowOrSkip(bs, top, skip, logs, room, want, rest);
    }
    OwesNothing(want, logs, rest, skip, room);
  }

  /** One pass of the loop: the newest row left is skipped, dropped as unreadable, or shown. */
  method ShowOrSkip(bs: seq<Bucket>, top: nat, skip: nat, logs: seq<Row>, room: nat, ghost want: seq<Row>, ghost rest: seq<Row>)
    returns (bs': seq<Bucket>, skip': nat, logs': seq<Row>, ghost rest': seq<Row>)
    requires top < |bs| && bs[top] != [] && rest == [Last(bs[top])] + Merge(Pop(bs, top))
    requires Owes(want, logs, rest, skip, room) && |logs| < room
    ensures rest' == Merge(bs') && Owes(want, logs', rest', skip', room) && Size(bs') < Size(bs)
  {
    var row := Last(bs[top]);
    PopSize(bs, top);
    LoopStep(want, logs, rest, skip, room);
    bs', rest', skip', logs' := Pop(bs, top), rest[1..], skip, logs;
    if skip > 0 {
      skip' := skip - 1;
    } else if row.decodes {
      logs' := logs + [row];
    }
  }

  /** `want` is what was collected plus what the rows left still give. */
  ghost predicate Owes(want: seq<Row>, logs: seq<Row>, rest: seq<Row>, skip: nat, room: nat) {
    |logs| <= room && want == logs + Page(rest, skip, room - |logs|)
  }

  lemma OwesNothing(want: seq<Row>, logs: seq<Row>, rest: seq<Row>, skip: nat, room: nat)
    requires Owes(want, logs, rest, skip, room) && (rest == [] || |logs| == room)
    ensures want == logs
  {
    assert Page(rest, skip, room - |logs|) == [];
  }

  lemma MergeStep(bs: seq<Bucket>, i: nat)
    requires i == Top(bs)
    ensures i == |bs| ==> Merge(bs) == []
    ensures i < |bs| ==> Merge(bs) == [Last(bs[i])] + Merge(Pop(bs, i))
  {
    if i < |bs| { PopSize(bs, i); }
  }

  /** One pass of the listing loop: the newest row is skipped, dropped as unreadable, or shown. */
  lemma LoopStep(want: seq<Row>, logs: seq<Row>, rest: seq<Row>, skip: nat, room: nat)
    requires Owes(want, logs, rest, skip, room) && |logs| < room && rest != []
    ensures skip > 0 ==> Owes(want, logs, rest[1..], skip - 1, room)
    ensures skip == 0 && !rest[0].decodes ==> Owes(want, logs, rest[1..], 0, room)
    ensures skip == 0 && rest[0].decodes ==> Owes(want, logs + [rest[0]], rest[1..], 0, room)
  {
    PageStep(rest, skip, room - |logs|);
    if skip == 0 && rest[0].decodes {
      Regroup(logs, rest[0], Page(rest[1..], 0, room - |logs| - 1));
    }
  }

  lemma Regroup(a: seq<Row>, x: Row, b: seq<Row>)
    ensures a + ([x] + b) == (a + [x]) + b
  {
  }

  lemma {:induction false} SizeAppend(bs: seq<Bucket>, b: Bucket)
    ensures Size(bs + [b]) == Size(bs) + |b|
    decreases |bs|
  {
    if bs == [] {
      assert ([] + [b])[1..] == [];
    } else {
      assert (bs + [b])[1..] == bs[1..] + [b];
      SizeAppend(bs[1..], b);
    }
  }

  // ---------------------------------------------------------------- trimming

  function EffectiveMax(n: int): (r: nat)
    ensures r > 0 && (n > 0 ==> r == n)
  {
    if n <= 0 then 2000 else n
  }

  /** The newest `n` rows of a bucket. */
  function Newest(b: Bucket, n: nat): Bucket {
    if |b| <= n then b else b[|b| - n..]
  }

  /** `TrimConnLogs`: in every bucket the oldest rows go one by one. */
  method TrimConnLogs(store: seq<UserLog>, maxEntries: int) returns (trimmed: seq<UserLog>, removed: nat)
    ensures |trimmed| == |store|
    ensures forall i | 0 <= i < |store| :: trimmed[i] == UserLog(store[i].user, Newest(store[i].rows, EffectiveMax(maxEntries)))
    ensures removed == Excess(store, EffectiveMax(maxEntries))
    // in numbers: the cap is 2000 if none is given, and what is removed is what is missing
    ensures forall i | 0 <= i < |store| ::
              var cap := if maxEntries <= 0 then 2000 else maxEntries;
              |trimmed[i].rows| == if |store[i].rows| <= cap then |store[i].rows| else cap
    ensures removed + RowCount(trimmed) == RowCount(store)
  {
    var cap := EffectiveMax(maxEntries);
    trimmed, removed := [], 0;
    var i := 0;
    while i < |store|
      invariant i <= |store| && |trimmed| == i
      invariant forall j | 0 <= j < i :: trimmed[j] == UserLog(store[j].user, Newest(store[j].rows, cap))
      invariant removed + Excess(store[i..], cap) == Excess(store, cap)
      invariant removed + RowCount(trimmed) + RowCount(store[i..]) == RowCount(store)
    {
      assert store[i..][0] == store[i] && store[i..][1..] == store[i + 1..];
      var b, gone := DropOldest(store[i].rows, cap);
      removed := removed + gone;
      RowCountAppend(trimmed, UserLog(store[i].user, b));
      trimmed := trimmed + [UserLog(store[i].user, b)];
      i := i + 1;
    }
  }

  /** One bucket: the oldest rows go one by one until `cap` are left. */
  method DropOldest(rows: Bucket, cap: nat) returns (b: Bucket, gone: nat)
    ensures b == Newest(rows, cap) && gone == if |rows| > cap then |rows| - cap else 0
  {
    b, gone := rows, 0;
    if |b| > cap {
      var drop := |b| - cap;
      while b != [] && drop > 0
        invariant 0 <= drop && |b| == drop + cap && |b| <= |rows| && b == rows[|rows| - |b|..]
        invariant gone + drop == |rows| - cap
      {
        b := b[1..];
        drop := drop - 1;
        gone := gone + 1;
      }
    }
  }

  function RowCount(store: seq<UserLog>): nat {
    if store == [] then 0 else |store[0].rows| + RowCount(store[1..])
  }

  lemma {:induction false} RowCountAppend(store: seq<UserLog>, l: UserLog)
    ensures RowCount(store + [l]) == RowCount(store) + |l.rows|
  {
    if store == [] {
      assert ([] + [l])[1..] == [];
    } else {
      assert (store + [l])[1..] == store[1..] + [l];
      RowCountAppend(store[1..], l);
    }
  }

  function Excess(store: seq<UserLog>, n: nat): nat {
    if store == [] then 0 else (if |store[0].rows| > n then |store[0].rows| - n else 0) + Excess(store[1..], n)
  }

  /** Trimming keeps exactly the newest rows: every row that goes is older than every row that
      stays, and the user's listing keeps its first rows unchanged. */
  lemma TrimKeepsNewest(b: Bucket, n: nat)
    requires Ascending(b)
    ensures forall x, y | x in Newest(b, n) && y in b && y !in Newest(b, n) :: y.key < x.key
    ensures |Newest(b, n)| == if |b| <= n then |b| else n
    ensures Merge([Newest(b, n)]) == Take(Merge([b]), n)
  {
    forall x, y | x in Newest(b, n) && y in b && y !in Newest(b, n) ensures y.key < x.key {
      var j :| 0 <= j < |b| && b[j] == y;
      NewestHas(b, n, j);
      var i :| 0 <= i < |Newest(b, n)| && Newest(b, n)[i] == x;
      assert x == b[|b| - n + i];
    }
    ListingSurvives(b, n);
  }

  lemma ListingSurvives(b: Bucket, n: nat)
    ensures Merge([Newest(b, n)]) == Take(Merge([b]), n)
  {
    MergeOne(b);
    MergeOne(Newest(b, n));
    TakeMirrored(b, n, Merge([b]), Merge([Newest(b, n)]));
  }

  lemma TakeMirrored(b: Bucket, n: nat, m: seq<Row>, s: seq<Row>)
    requires |m| == |b| && forall k | 0 <= k < |b| :: m[k] == b[|b| - 1 - k]
    requires |s| == |Newest(b, n)| && forall k | 0 <= k < |s| :: s[k] == Newest(b, n)[|s| - 1 - k]
    ensures s == Take(m, n)
  {
    assert |s| == |Take(m, n)|;
    forall k | 0 <= k < |s| ensures s[k] == Take(m, n)[k] {
      assert s[k] == Newest(b, n)[|s| - 1 - k];
    }
  }

  lemma NewestHas(b: Bucket, n: nat, j: nat)
    requires j < |b|
    ensures b[j] in Newest(b, n) || j < |b| - n
  {
    var k := if |b| <= n then 0 else |b| - n;
    if j >= k {
      assert Newest(b, n)[j - k] == b[j];
    }
  }

  lemma {:induction false} MergeOne(b: Bucket)
    ensures |Merge([b])| == |b| && forall k | 0 <= k < |b| :: Merge([b])[k] == b[|b| - 1 - k]
    decreases |b|
  {
    if b != [] {
      assert Pop([b], 0) == [b[..|b| - 1]];
      MergeOne(b[..|b| - 1]);
    }
  }

  /** Each bucket of `ts` is what is left of the one in `bs` after dropping old rows, and still has its
      `k` newest. */
  ghost predicate KeepsNewest(bs: seq<Bucket>, ts: seq<Bucket>, k: nat) {
    |bs| == |ts| && forall i {:trigger KeepsOf(bs[i], ts[i], k)} | 0 <= i < |bs| :: KeepsOf(bs[i], ts[i], k)
  }

  predicate KeepsOf(b: Bucket, t: Bucket, k: nat) {
    |t| <= |b| && t == b[|b| - |t|..] && (|t| >= k || |t| == |b|)
  }

  lemma {:induction false} TopSame(bs: seq<Bucket>, ts: seq<Bucket>)
    requires KeepsNewest(bs, ts, 1)
    ensures Top(bs) == Top(ts) && (Top(bs) < |bs| ==> Last(bs[Top(bs)]) == Last(ts[Top(ts)]))
    decreases |bs|
  {
    if bs != [] {
      assert KeepsOf(bs[0], ts[0], 1);
      assert KeepsNewest(bs[1..], ts[1..], 1) by {
        forall i | 0 <= i < |bs| - 1 ensures KeepsOf(bs[1..][i], ts[1..][i], 1) { assert KeepsOf(bs[i + 1], ts[i + 1], 1); }
      }
      TopSame(bs[1..], ts[1..]);
    }
  }

  lemma PopKeeps(bs: seq<Bucket>, ts: seq<Bucket>, i: nat, k: nat)
    requires KeepsNewest(bs, ts, k) && k > 0 && i < |bs| && bs[i] != [] && ts[i] != []
    ensures KeepsNewest(Pop(bs, i), Pop(ts, i), k - 1)
  {
    forall j | 0 <= j < |bs| ensures KeepsOf(Pop(bs, i)[j], Pop(ts, i)[j], k - 1) { assert KeepsOf(bs[j], ts[j], k); }
  }

  /** The `k` newest rows of the merged log. */
  function MergedNewest(bs: seq<Bucket>, k: nat): seq<Row> { Take(Merge(bs), k) }

  lemma BothNext(bs: seq<Bucket>, ts: seq<Bucket>, k: nat)
    requires KeepsNewest(bs, ts, k) && k > 0
    ensures var i := Top(bs);
            && i == Top(ts)
            && (i < |bs| ==> i < |ts| && Last(bs[i]) == Last(ts[i]) && KeepsNewest(Pop(bs, i), Pop(ts, i), k - 1))
  {
    KeepsOne(bs, ts, k);
    TopSame(bs, ts);
    if Top(bs) < |bs| { PopKeeps(bs, ts, Top(bs), k); }
  }

  lemma TakeNone(bs: seq<Bucket>, ts: seq<Bucket>, k: nat)
    requires k == 0 || (Top(bs) == |bs| && Top(ts) == |ts|)
    ensures MergedNewest(bs, k) == MergedNewest(ts, k)
  {
    if k == 0 {
      assert Take(Merge(bs), 0) == [] == Take(Merge(ts), 0);
    }
  }

  /** They need only the `k` newest rows of every bucket. */
  lemma {:induction false} MergeNeedsNewest(bs: seq<Bucket>, ts: seq<Bucket>, k: nat)
    requires KeepsNewest(bs, ts, k)
    ensures MergedNewest(bs, k) == MergedNewest(ts, k)
    decreases k
  {
    if k == 0 {
      TakeNone(bs, ts, k);
    } else {
      var i := Top(bs);
      BothNext(bs, ts, k);
      if i < |bs| {
        var bs', ts' := Pop(bs, i), Pop(ts, i);
        MergeNeedsNewest(bs', ts', k - 1);
        TakeOneMore(bs, ts, i, k);
      } else {
        TakeNone(bs, ts, k);
      }
    }
  }

  lemma KeepsOne(bs: seq<Bucket>, ts: seq<Bucket>, k: nat)
    requires KeepsNewest(bs, ts, k) && k > 0
    ensures KeepsNewest(bs, ts, 1)
  {
    forall i | 0 <= i < |bs| ensures KeepsOf(bs[i], ts[i], 1) { assert KeepsOf(bs[i], ts[i], k); }
  }

  lemma TakeOneMore(bs: seq<Bucket>, ts: seq<Bucket>, i: nat, k: nat)
    requires i == Top(bs) == Top(ts) && i < |bs| && i < |ts| && Last(bs[i]) == Last(ts[i])
    requires k > 0 && MergedNewest(Pop(bs, i), k - 1) == MergedNewest(Pop(ts, i), k - 1)
    ensures MergedNewest(bs, k) == MergedNewest(ts, k)
  {
    MergeStep(bs, i);
    MergeStep(ts, i);
    TakeFront(Last(bs[i]), Merge(Pop(bs, i)), Merge(Pop(ts, i)), k);
  }

  lemma TakeFront(x: Row, s: seq<Row>, t: seq<Row>, k: nat)
    requires k > 0 && Take(s, k - 1) == Take(t, k - 1)
    ensures Take([x] + s, k) == Take([x] + t, k)
  {
    TakeCons(x, s, k);
    TakeCons(x, t, k);
  }

  lemma TakeCons(x: Row, s: seq<Row>, k: nat)
    requires k > 0
    ensures Take([x] + s, k) == [x] + Take(s, k - 1)
  {
  }

  /** What `TrimConnLogs` leaves. */
  ghost predicate TrimmedTo(store: seq<UserLog>, trimmed: seq<UserLog>, n: nat) {
    |trimmed| == |store| && forall i | 0 <= i < |store| :: trimmed[i] == UserLog(store[i].user, Newest(store[i].rows, n))
  }

  lemma KeepsCons(b: Bucket, t: Bucket, bs: seq<Bucket>, ts: seq<Bucket>, k: nat)
    requires KeepsOf(b, t, k) && KeepsNewest(bs, ts, k)
    ensures KeepsNewest([b] + bs, [t] + ts, k)
  {
    forall i | 0 <= i <= |bs| ensures KeepsOf(([b] + bs)[i], ([t] + ts)[i], k) {
      if i > 0 { assert KeepsOf(bs[i - 1], ts[i - 1], k); }
    }
  }

  lemma NewestKeeps(b: Bucket, n: nat)
    ensures KeepsOf(b, Newest(b, n), n)
  {
  }

  lemma {:induction false} SelectedKeeps(store: seq<UserLog>, trimmed: seq<UserLog>, n: nat, user: Option<UserId>)
    requires TrimmedTo(store, trimmed, n)
    ensures KeepsNewest(Selected(store, user), Selected(trimmed, user), n)
    decreases |store|
  {
    if store != [] {
      var b := store[0].rows;
      assert trimmed[0] == UserLog(store[0].user, Newest(b, n));
      assert TrimmedTo(store[1..], trimmed[1..], n);
      SelectedKeeps(store[1..], trimmed[1..], n, user);
      var bs, ts := Selected(store[1..], user), Selected(trimmed[1..], user);
      NewestKeeps(b, n);
      KeepsCons(b, Newest(b, n), bs, ts, n);
      assert [] + bs == bs && [] + ts == ts;
    }
  }

  /** Trimming every bucket to its `n` newest rows changes no page, of one user or of all merged, that
      finds its rows within the `n` newest rows of the listing; nor any page of a listing no longer. */
  lemma PagesSurviveTrim(store: seq<UserLog>, trimmed: seq<UserLog>, n: nat, user: Option<UserId>, offset: nat, limit: nat)
    requires TrimmedTo(store, trimmed, n)
    requires var m := Merge(Selected(store, user)); limit <= |Good(Drop(Take(m, n), offset))| || |m| <= n
    ensures Page(Merge(Selected(trimmed, user)), offset, limit) == Page(Merge(Selected(store, user)), offset, limit)
  {
    var bs, ts := Selected(store, user), Selected(trimmed, user);
    SelectedKeeps(store, trimmed, n, user);
    MergeNeedsNewest(bs, ts, n);
    MergeKeepsRows(bs);
    MergeKeepsRows(ts);
    KeptSize(bs, ts, n);
    PagesAlike(Merge(bs), Merge(ts), n, offset, limit);
  }

  lemma PagesAlike(m: seq<Row>, t: seq<Row>, n: nat, offset: nat, limit: nat)
    requires Take(m, n) == Take(t, n) && |t| <= |m|
    requires limit <= |Good(Drop(Take(m, n), offset))| || |m| <= n
    ensures Page(t, offset, limit) == Page(m, offset, limit)
  {
    if |m| > n {
      PageOfPrefix(m, n, offset, limit);
      PageOfPrefix(t, n, offset, limit);
    } else {
      assert Take(m, n) == m && Take(t, n) == t;
    }
  }

  lemma {:induction false} KeptSize(bs: seq<Bucket>, ts: seq<Bucket>, n: nat)
    requires KeepsNewest(bs, ts, n)
    ensures Size(ts) <= Size(bs)
    decreases |bs|
  {
    if bs != [] {
      assert KeepsOf(bs[0], ts[0], n);
      assert KeepsNewest(bs[1..], ts[1..], n) by {
        forall i | 0 <= i < |bs| - 1 ensures KeepsOf(bs[1..][i], ts[1..][i], n) { assert KeepsOf(bs[i + 1], ts[i + 1], n); }
      }
      KeptSize(bs[1..], ts[1..], n);
    }
  }

  lemma PageOfPrefix(m: seq<Row>, n: nat, offset: nat, limit: nat)
    requires limit <= |Good(Drop(Take(m, n), offset))|
    ensures Page(m, offset, limit) == Page(Take(m, n), offset, limit)
  {
    if offset <= n < |m| {
      var near, far := Drop(Take(m, n), offset), m[n..];
      assert Drop(m, offset) == near + far;
      GoodAppend(near, far);
      assert Take(Good(near) + Good(far), limit) == Take(Good(near), limit);
    } else if n < offset {
      assert Drop(Take(m, n), offset) == [] && limit == 0;
      assert Take(Good(Drop(m, offset)), 0) == [];
    } else {
      assert Take(m, n) == m;
    }
  }
}
