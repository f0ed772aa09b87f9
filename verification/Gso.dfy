/** Segmentation offload: which packets may be merged into one message, and how a merged message
    is cut again (internal/tunnelapp/gso.go). */
module Gso {
  const BURST := 32 * 1024

  datatype SegRun = SegRun(total: int, segSize: int, closed: bool)

  predicate CanAppend(r: SegRun, n: int) {
    if r.closed || n <= 0 || r.total == 0 then false
    else if r.total + n > BURST then false
    else n <= if r.segSize == 0 then r.total else r.segSize
  }

  function Append(r: SegRun, n: int): SegRun {
    var seg := if r.segSize == 0 then r.total else r.segSize;
    SegRun(r.total + n, seg, n < seg)
  }

  function ControlSize(r: SegRun): int {
    if r.segSize == 0 || r.total <= r.segSize then 0 else r.segSize
  }

  function GroSegments(total: int, segSize: int): int {
    if segSize <= 0 || segSize >= total then 1
    else total / segSize + if total % segSize != 0 then 1 else 0
  }

  function GroSegmentAt(total: int, segSize: int, i: int): (int, int) {
    if segSize <= 0 || segSize >= total then (0, total)
    else
      var start := i * segSize;
      (start, if start + segSize > total then total else start + segSize)
  }

  // ---------------------------------------------------------------- cutting

  lemma SegmentInBounds(total: int, segSize: int, i: int)
    requires 0 <= total && 0 <= i < GroSegments(total, segSize)
    ensures var (a, b) := GroSegmentAt(total, segSize, i);
            0 <= a <= b <= total && (0 < total ==> a < b)
  {
    if 0 < segSize < total {
      var q := total / segSize;
      assert total == q * segSize + total % segSize;
      if i < q { MulMono(i + 1, q, segSize); } else { assert i == q; }
      assert (i + 1) * segSize == i * segSize + segSize;
    }
  }

  lemma MulMono(a: int, b: int, c: int)
    requires 0 <= a <= b && 0 <= c
    ensures 0 <= a * c <= b * c
  {
  }

  /** What the reader delivers for a received message: the slices `GroSegmentAt` names, in order. */
  function Cut<T>(data: seq<T>, segSize: int): (pieces: seq<seq<T>>)
    ensures |pieces| == GroSegments(|data|, segSize)
  {
    seq(GroSegments(|data|, segSize), i requires 0 <= i < GroSegments(|data|, segSize) =>
      SegmentInBounds(|data|, segSize, i);
      data[GroSegmentAt(|data|, segSize, i).0..GroSegmentAt(|data|, segSize, i).1])
  }

  function Flatten<T>(pieces: seq<seq<T>>): seq<T> {
    if pieces == [] then [] else Flatten(pieces[..|pieces| - 1]) + pieces[|pieces| - 1]
  }

  lemma SegmentsStep(total: int, segSize: int)
    requires 0 < segSize < total
    ensures GroSegments(total, segSize) == 1 + GroSegments(total - segSize, segSize)
  {
    var rest := total - segSize;
    DivStep(total, segSize);
    if rest < segSize { QuotientIs(rest, segSize, 0, rest); }
    else if rest == segSize { QuotientIs(rest, segSize, 1, 0); }
  }

  lemma SegmentAtStep(total: int, segSize: int, i: int)
    requires 0 < segSize < total && 0 <= i < GroSegments(total - segSize, segSize)
    ensures GroSegmentAt(total, segSize, i + 1).0 == GroSegmentAt(total - segSize, segSize, i).0 + segSize
    ensures GroSegmentAt(total, segSize, i + 1).1 == GroSegmentAt(total - segSize, segSize, i).1 + segSize
  {
    assert (i + 1) * segSize == i * segSize + segSize;
    if total - segSize <= segSize { assert i == 0; }
  }

  lemma DivStep(a: int, b: int)
    requires 0 < b <= a
    ensures a / b == (a - b) / b + 1 && a % b == (a - b) % b
  {
    var q, m := (a - b) / b, (a - b) % b;
    assert a == (q + 1) * b + m;
    QuotientIs(a, b, q + 1, m);
  }

  lemma QuotientIs(a: int, b: int, q: int, m: int)
    requires 0 <= m < b && a == q * b + m
    ensures a / b == q && a % b == m
  {
    var d := a / b - q;
    assert d * b == m - a % b by {
      assert a == (a / b) * b + a % b;
      assert d * b == (a / b) * b - q * b;
    }
    assert (-d) * b == -(d * b);
    if d > 0 { MulMono(1, d, b); } else if d < 0 { MulMono(1, -d, b); }
  }

  lemma SliceOfSuffix<T>(data: seq<T>, k: int, a: int, b: int)
    requires 0 <= k && 0 <= a <= b && b + k <= |data|
    ensures data[k..][a..b] == data[a + k..b + k]
  {
  }

  /** Cutting a long message takes its first segment off and cuts the rest. */
  lemma CutStep<T>(data: seq<T>, segSize: int)
    requires 0 < segSize < |data|
    ensures Cut(data, segSize) == [data[..segSize]] + Cut(data[segSize..], segSize)
  {
    SegmentsStep(|data|, segSize);
    var l, r := Cut(data, segSize), [data[..segSize]] + Cut(data[segSize..], segSize);
    forall i | 0 <= i < |l| ensures l[i] == r[i] {
      SegmentInBounds(|data|, segSize, i);
      if i > 0 {
        SegmentInBounds(|data| - segSize, segSize, i - 1);
        var (a, b) := GroSegmentAt(|data| - segSize, segSize, i - 1);
        SegmentAtStep(|data|, segSize, i - 1);
        SliceOfSuffix(data, segSize, a, b);
      }
    }
  }

  lemma CutShort<T>(data: seq<T>, segSize: int)
    requires segSize <= 0 || |data| <= segSize
    ensures Cut(data, segSize) == [data]
  {
    assert data[0..|data|] == data;
  }

  lemma FlattenCons<T>(x: seq<T>, rest: seq<seq<T>>)
    ensures Flatten([x] + rest) == x + Flatten(rest)
  {
    if rest == [] {
      assert [x] + rest == [x] && Flatten([x][..0]) == [];
    } else {
      var n := |rest| - 1;
      assert ([x] + rest)[..n + 1] == [x] + rest[..n];
      FlattenCons(x, rest[..n]);
    }
  }

  /** Cutting loses nothing and reorders nothing, whatever segment size the kernel reports. */
  lemma {:induction false} CutLosesNothing<T>(data: seq<T>, segSize: int)
    ensures Flatten(Cut(data, segSize)) == data
    decreases |data|
  {
    if segSize <= 0 || |data| <= segSize {
      CutShort(data, segSize);
      assert Flatten([data][..0]) == [];
    } else {
      CutStep(data, segSize);
      CutLosesNothing(data[segSize..], segSize);
      FlattenCons(data[..segSize], Cut(data[segSize..], segSize));
    }
  }

  // ---------------------------------------------------------------- merging

  /** The shape of a run: one packet, or whole segments with at most one short tail. */
  ghost predicate RunOk(r: SegRun) {
    && 0 < r.total && 0 <= r.segSize
    && (r.segSize == 0 ==> !r.closed)
    && (0 < r.segSize ==> r.segSize < r.total && (r.closed <==> r.total % r.segSize != 0))
  }

  lemma {:induction false} CutAppend<T>(data: seq<T>, seg: int, pkt: seq<T>)
    requires 0 < seg <= |data| && |data| % seg == 0 && 0 < |pkt| <= seg
    ensures Cut(data + pkt, seg) == Cut(data, seg) + [pkt]
    decreases |data|
  {
    CutStep(data + pkt, seg);
    DivStep(|data|, seg);
    if |data| == seg {
      assert (data + pkt)[..seg] == data && (data + pkt)[seg..] == pkt;
      CutShort(data, seg);
      CutShort(pkt, seg);
    } else {
      assert (data + pkt)[..seg] == data[..seg] && (data + pkt)[seg..] == data[seg..] + pkt;
      CutStep(data, seg);
      ModPositive(|data| - seg, seg);
      CutAppend(data[seg..], seg, pkt);
    }
  }

  lemma ModPositive(a: int, b: int)
    requires 0 < a && 0 < b && a % b == 0
    ensures b <= a
  {
    if a < b { QuotientIs(a, b, 0, a); }
  }

  /** One accepted merge: the longer message, cut at its new control size, is the old packets and
      the new one. */
  lemma AppendCut<T>(r: SegRun, data: seq<T>, pkt: seq<T>)
    requires RunOk(r) && |data| == r.total && CanAppend(r, |pkt|)
    ensures RunOk(Append(r, |pkt|))
    ensures Cut(data + pkt, ControlSize(Append(r, |pkt|))) == Cut(data, ControlSize(r)) + [pkt]
    ensures Append(r, |pkt|).total <= BURST
  {
    var seg := if r.segSize == 0 then r.total else r.segSize;
    if r.segSize == 0 {
      CutShort(data, 0);
      CutShort(data, seg);
      QuotientIs(|data|, seg, 1, 0);
    }
    CutAppend(data, seg, pkt);
    TailMod(r.total, seg, |pkt|);
  }

  lemma TailMod(a: int, seg: int, n: int)
    requires 0 < seg <= a && a % seg == 0 && 0 < n <= seg
    ensures (a + n) % seg == if n < seg then n else 0
  {
    var q := a / seg;
    assert a == q * seg;
    if n < seg {
      QuotientIs(a + n, seg, q, n);
    } else {
      assert a + n == (q + 1) * seg;
      QuotientIs(a + n, seg, q + 1, 0);
    }
  }

  /** The run after merging `ps` one after another into one message. */
  function RunOf<T>(ps: seq<seq<T>>): SegRun
    requires ps != []
  {
    if |ps| == 1 then SegRun(|ps[0]|, 0, false)
    else Append(RunOf(ps[..|ps| - 1]), |ps[|ps| - 1]|)
  }

  /** `ps` went into one message: a first non-empty packet, and each later one was accepted. */
  predicate Accepted<T>(ps: seq<seq<T>>) {
    && ps != []
    && if |ps| == 1 then ps[0] != []
       else Accepted(ps[..|ps| - 1]) && CanAppend(RunOf(ps[..|ps| - 1]), |ps[|ps| - 1]|)
  }

  /** Merge and split undo each other, for every accepted list of packets. */
  lemma {:induction false} MergeThenSplit<T>(ps: seq<seq<T>>)
    requires Accepted(ps)
    ensures RunOk(RunOf(ps)) && RunOf(ps).total == |Flatten(ps)|
    ensures Cut(Flatten(ps), ControlSize(RunOf(ps))) == ps
    ensures |ps| > 1 ==> |Flatten(ps)| <= BURST
    decreases |ps|
  {
    var n := |ps| - 1;
    if n == 0 {
      assert Flatten(ps) == Flatten(ps[..0]) + ps[0] == ps[0];
      CutShort(ps[0], 0);
      assert ps == [ps[0]];
    } else {
      MergeThenSplit(ps[..n]);
      AppendCut(RunOf(ps[..n]), Flatten(ps[..n]), ps[n]);
      assert ps == ps[..n] + [ps[n]];
    }
  }

  /** The kernel's rule: every segment but the last has the length of the first, and the last is
      no longer. */
  lemma {:induction false} AcceptedShape<T>(ps: seq<seq<T>>)
    requires Accepted(ps)
    ensures forall i | 0 <= i < |ps| - 1 :: |ps[i]| == |ps[0]|
    ensures 0 < |ps[|ps| - 1]| <= |ps[0]|
    ensures |ps| > 1 ==> RunOf(ps).segSize == |ps[0]| && (RunOf(ps).closed <==> |ps[|ps| - 1]| < |ps[0]|)
    decreases |ps|
  {
    var n := |ps| - 1;
    if n > 0 {
      var init := ps[..n];
      AcceptedShape(init);
      assert init[0] == ps[0] && init[n - 1] == ps[n - 1];
      assert RunOf(ps) == Append(RunOf(init), |ps[n]|);
      forall i | 0 <= i < n ensures |ps[i]| == |ps[0]| { assert ps[i] == init[i]; }
    }
  }

  // ---------------------------------------------------------------- when packets are merged

  function ByteCount<T>(ps: seq<seq<T>>): nat {
    if ps == [] then 0 else ByteCount(ps[..|ps| - 1]) + |ps[|ps| - 1]|
  }

  /** What the kernel can cut apart again: no empty packet, all but the last of one length, the last no
      longer, and no more than 32768 bytes if there are several. */
  predicate Mergeable<T>(ps: seq<seq<T>>) {
    && ps != [] && ps[0] != [] && 0 < |ps[|ps| - 1]| <= |ps[0]|
    && (forall i | 0 <= i < |ps| - 1 :: |ps[i]| == |ps[0]|)
    && (|ps| > 1 ==> ByteCount(ps) <= 32768)
  }

  lemma {:induction false} RunTotals<T>(ps: seq<seq<T>>)
    requires ps != []
    ensures RunOf(ps).total == ByteCount(ps)
    decreases |ps|
  {
    if |ps| > 1 {
      RunTotals(ps[..|ps| - 1]);
    } else {
      assert ps[..0] == [];
    }
  }

  /** Merging goes exactly as far as that: packets go into one message if and only if they are mergeable. */
  lemma {:induction false} AcceptedIff<T>(ps: seq<seq<T>>)
    ensures Accepted(ps) <==> Mergeable(ps)
    decreases |ps|
  {
    var n := |ps| - 1;
    if n > 0 {
      var init := ps[..n];
      AcceptedIff(init);
      RunTotals(init);
      assert init[0] == ps[0] && init[n - 1] == ps[n - 1];
      if Accepted(init) {
        AcceptedShape(init);
        OneMoreMergeable(ps);
      } else if Mergeable(ps) {
        ShorterMergeable(ps);
      }
    }
  }

  lemma ShorterMergeable<T>(ps: seq<seq<T>>)
    requires Mergeable(ps) && |ps| > 1
    ensures Mergeable(ps[..|ps| - 1])
  {
    var n := |ps| - 1;
    var init := ps[..n];
    assert forall i | 0 <= i < n :: init[i] == ps[i];
  }

  lemma OneMoreMergeable<T>(ps: seq<seq<T>>)
    requires |ps| > 1 && Mergeable(ps[..|ps| - 1]) && Accepted(ps[..|ps| - 1])
    requires var init := ps[..|ps| - 1];
             && RunOf(init).total == ByteCount(init)
             && (|init| > 1 ==> RunOf(init).segSize == |init[0]| && (RunOf(init).closed <==> |init[|init| - 1]| < |init[0]|))
    ensures CanAppend(RunOf(ps[..|ps| - 1]), |ps[|ps| - 1]|) <==> Mergeable(ps)
  {
    var n := |ps| - 1;
    var init := ps[..n];
    assert forall i | 0 <= i < n :: init[i] == ps[i];
    assert ByteCount(ps) == ByteCount(init) + |ps[n]|;
    if n == 1 {
      assert init[..0] == [] && ByteCount(init) == |init[0]|;
    }
    if Mergeable(ps) { assert |ps[n - 1]| == |ps[0]|; }
  }
}
