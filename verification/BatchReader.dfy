/** The batch reader (internal/tunnelapp/udpio.go, batchReader).

    The kernel is the sequence `kernel` of batches it will return, one per system call, ending in
    an error.  Each `Recv` is what one slot then holds: the bytes, the peer if it is a UDP address,
    and the GRO segment size. */
module BatchReader {
  import opened Prelude
  import opened Gso
  import opened BatchIo

  datatype Recv = Recv(data: Bytes, from: Option<Addr>, seg: int)

  /** The packets the reader owes its caller for one received message. */
  function Owed(m: Recv): seq<Packet> {
    if m.data == [] || m.from.None? then [] else Tag(Cut(m.data, m.seg), m.from.value)
  }

  function OwedAll(ms: seq<Recv>): seq<Packet> {
    if ms == [] then [] else Owed(ms[0]) + OwedAll(ms[1..])
  }

  function OwedBatches(bs: seq<seq<Recv>>): seq<Packet> {
    if bs == [] then [] else OwedAll(bs[0]) + OwedBatches(bs[1..])
  }

  class Reader {
    const cap: nat
    const bufSize: nat
    const store: array2<Byte>
    const lens: array<int>
    const from: array<Option<Addr>>
    const segs: array<int>
    var nRead: nat
    var next: nat
    var segTotal: int
    var segSize: int
    var segCount: int
    var segNext: int
    /** What the kernel has still to return. */
    var kernel: seq<seq<Recv>>
    /** What the slots hold. */
    ghost var batch: seq<Recv>

    ghost predicate Slot(i: nat)
      requires i < |batch| && i < store.Length0 && i < lens.Length && i < from.Length && i < segs.Length
      reads this, store, lens, from, segs
    {
      && |batch[i].data| == lens[i] <= store.Length1
      && (forall j | 0 <= j < lens[i] :: batch[i].data[j] == store[i, j])
      && batch[i].from == from[i] && batch[i].seg == segs[i]
    }

    ghost predicate Valid()
      reads this, store, lens, from, segs
    {
      && store.Length0 == lens.Length == from.Length == segs.Length == cap && store.Length1 == bufSize && lens != segs
      && next <= nRead <= cap && |batch| == nRead
      && (forall i: nat {:trigger Slot(i)} | i < nRead :: Slot(i))
      && (forall b, i | 0 <= b < |kernel| && 0 <= i < |kernel[b]| :: |kernel[b][i].data| <= bufSize)
      && (forall b | 0 <= b < |kernel| :: |kernel[b]| <= cap)
      && 0 <= segNext
      && (segNext < segCount ==>
            && 0 < next && batch[next - 1].data != []
            && segTotal == |batch[next - 1].data| && segSize == batch[next - 1].seg
            && segCount == GroSegments(segTotal, segSize))
    }

    constructor (cap: nat, bufSize: nat, kernel: seq<seq<Recv>>)
      requires forall b, i | 0 <= b < |kernel| && 0 <= i < |kernel[b]| :: |kernel[b][i].data| <= bufSize
      requires forall b | 0 <= b < |kernel| :: |kernel[b]| <= cap
      ensures Valid() && Left() == OwedBatches(kernel)
    {
      this.cap, this.bufSize, this.kernel := cap, bufSize, kernel;
      store := new Byte[cap, bufSize]((_, _) => 0);
      lens := new int[cap](_ => 0);
      from := new Option<Addr>[cap](_ => None);
      segs := new int[cap](_ => 0);
      nRead, next, segTotal, segSize, segCount, segNext, batch := 0, 0, 0, 0, 0, 0, [];
    }

    /** The rest of the message being cut. */
    ghost function CurLeft(): seq<Packet>
      requires Valid()
      reads this, store, lens, from, segs
    {
      if segNext < segCount && batch[next - 1].from.Some? then Owed(batch[next - 1])[segNext..] else []
    }

    /** Everything of this batch not yet handed out. */
    ghost function BatchLeft(): seq<Packet>
      requires Valid()
      reads this, store, lens, from, segs
    {
      CurLeft() + OwedAll(batch[next..])
    }

    /** Everything still to come. */
    ghost function Left(): seq<Packet>
      requires Valid()
      reads this, store, lens, from, segs
    {
      BatchLeft() + OwedBatches(kernel)
    }

    /** `buffered`: a caller that sees zero has been given everything the last system call returned,
        and a batch without skipped messages holds at least what it counts. */
    method Buffered() returns (n: int)
      requires Valid()
      ensures n == 0 <==> segNext >= segCount && next == nRead
      ensures n == 0 ==> BatchLeft() == []
      ensures (forall i | 0 <= i < nRead :: batch[i].data != [] && batch[i].from.Some?) ==> n <= |BatchLeft()|
    {
      n := segCount - segNext;
      if n < 0 {
        n := 0;
      }
      if nRead > next {
        n := n + (nRead - next);
      }
      if forall i | 0 <= i < nRead :: batch[i].data != [] && batch[i].from.Some? {
        OwedAtLeast(batch[next..]);
      }
    }

    /** One `ReadBatch` call into the slots; it may only happen when nothing undelivered is in them. */
    method Refill()
      requires Valid() && kernel != [] && next == nRead && segNext >= segCount
      requires BatchLeft() == []
      modifies this, store, lens, from, segs
      ensures Valid() && next == 0 && batch == old(kernel[0]) && kernel == old(kernel[1..])
      ensures segNext == old(segNext) && segCount == old(segCount) && Left() == old(Left())
    {
      var b := kernel[0];
      batch, nRead, next := [], 0, 0;
      for i := 0 to |b|
        invariant nRead == i && next == 0 && batch == b[..i] && kernel == old(kernel)
        invariant segTotal == old(segTotal) && segSize == old(segSize)
        invariant segNext == old(segNext) && segCount == old(segCount)
        invariant forall k: nat {:trigger Slot(k)} | k < i :: Slot(k)
      {
        label before:
        Receive(i, b[i]);
        assert b[..i + 1] == b[..i] + [b[i]];
        batch, nRead := batch + [b[i]], i + 1;
        forall k: nat | k < i + 1 ensures Slot(k) { assert k < i ==> old@before(Slot(k)); }
      }
      assert b[..|b|] == b;
      label filled:
      kernel := kernel[1..];
      forall k: nat | k < nRead ensures Slot(k) { assert old@filled(Slot(k)); }
    }

    /** The kernel writes one message into slot `i`, and nowhere else. */
    method Receive(i: nat, m: Recv)
      requires i < cap && store.Length0 == lens.Length == from.Length == segs.Length == cap && lens != segs
      requires |m.data| <= store.Length1
      modifies store, lens, from, segs
      ensures lens[i] == |m.data| && from[i] == m.from && segs[i] == m.seg
      ensures forall k | 0 <= k < cap && k != i ::
                lens[k] == old(lens[k]) && from[k] == old(from[k]) && segs[k] == old(segs[k])
      ensures forall j | 0 <= j < |m.data| :: store[i, j] == m.data[j]
      ensures forall k, j | 0 <= k < cap && k != i && 0 <= j < store.Length1 :: store[k, j] == old(store[k, j])
    {
      for j := 0 to |m.data|
        invariant forall x | 0 <= x < j :: store[i, x] == m.data[x]
        invariant lens[..] == old(lens[..]) && from[..] == old(from[..]) && segs[..] == old(segs[..])
        invariant forall k, x | 0 <= k < cap && k != i && 0 <= x < store.Length1 :: store[k, x] == old(store[k, x])
      {
        store[i, j] := m.data[j];
      }
      lens[i], from[i], segs[i] := |m.data|, m.from, m.seg;
    }

    /** `r.store[i][start:end]`. */
    method Slice(i: nat, a: nat, b: nat) returns (data: Bytes)
      requires i < |batch| && i < store.Length0 && i < lens.Length && i < from.Length && i < segs.Length
      requires Slot(i) && a <= b <= lens[i]
      ensures data == batch[i].data[a..b]
    {
      data := [];
      for j := a to b
        invariant data == batch[i].data[a..j]
      {
        data := data + [store[i, j]];
      }
    }

    /** `read`: the next owed packet, or an error once the kernel has no more. */
    method Read() returns (p: Option<Packet>)
      requires Valid()
      modifies this, store, lens, from, segs
      ensures Valid()
      ensures old(Left()) == [] <==> p == None
      ensures p.None? ==> Left() == []
      ensures p.Some? ==> old(Left()) == [p.value] + Left()
    {
      while true
        invariant Valid() && Left() == old(Left())
        decreases |kernel|, nRead - next, segCount - segNext
      {
        if segNext < segCount {
          var taken := NextSegment();
          if taken.Some? {
            return taken;
          }
        } else if next >= nRead {
          if kernel == [] {
            return None;
          }
          Refill();
        } else {
          NextMessage();
        }
      }
    }

    /** Hand out the next segment of the current message; skip it if the peer is not a UDP address. */
    method NextSegment() returns (p: Option<Packet>)
      requires Valid() && segNext < segCount
      modifies this`segNext
      ensures Valid() && segNext == old(segNext) + 1
      ensures p.Some? ==> old(Left()) == [p.value] + Left()
      ensures p.None? ==> Left() == old(Left())
    {
      p := SegmentPacket();
      segNext := segNext + 1;
      forall k: nat | k < nRead ensures Slot(k) { assert old(Slot(k)); }
      assert Valid();
      if p.Some? {
        ghost var o := Owed(batch[next - 1]);
        assert CurLeft() == o[segNext..];
        assert old(CurLeft()) == [p.value] + CurLeft();
        Regrouped(old(CurLeft()), p.value, CurLeft(), OwedAll(batch[next..]), OwedBatches(kernel));
      } else {
        assert CurLeft() == [] && old(CurLeft()) == [];
      }
    }

    /** The packet in the current segment. */
    method SegmentPacket() returns (p: Option<Packet>)
      requires Valid() && segNext < segCount
      ensures p.Some? <==> batch[next - 1].from.Some?
      ensures p.Some? ==> segCount == |Owed(batch[next - 1])|
      ensures p.Some? ==> Owed(batch[next - 1])[segNext..] == [p.value] + Owed(batch[next - 1])[segNext + 1..]
    {
      var i := next - 1;
      assert Slot(i);
      if from[i].None? {
        return None;
      }
      OwedAt(batch[i], segNext);
      var (a, b) := GroSegmentAt(segTotal, segSize, segNext);
      var data := Slice(i, a, b);
      p := Some(Packet(data, from[i].value.ip, from[i].value.port));
    }

    /** Move on to the next message of the batch; an empty one is skipped. */
    method NextMessage()
      requires Valid() && segNext >= segCount && next < nRead
      modifies this`next, this`segTotal, this`segSize, this`segCount, this`segNext
      ensures Valid() && next == old(next) + 1 && Left() == old(Left())
    {
      var i := next;
      assert Slot(i);
      MessageStep(batch, i);
      ghost var before := BatchLeft();
      next := next + 1;
      if lens[i] > 0 {
        StartMessage(i);
      }
      forall k: nat | k < nRead ensures Slot(k) { assert old(Slot(k)); }
      assert CurLeft() == Owed(batch[i]);
      assert BatchLeft() == before;
    }

    method StartMessage(i: nat)
      requires i < lens.Length && i < segs.Length && lens[i] > 0
      modifies this`segTotal, this`segSize, this`segCount, this`segNext
      ensures segTotal == lens[i] && segSize == segs[i] && segNext == 0 && segCount == GroSegments(segTotal, segSize) && segCount > 0
    {
      segTotal, segSize, segNext := lens[i], segs[i], 0;
      segCount := GroSegments(segTotal, segSize);
      SegmentsPositive(segTotal, segSize);
    }
  }

  /** The messages from the `i`-th on owe what it owes and what the later ones owe. */
  lemma MessageStep(b: seq<Recv>, i: nat)
    requires i < |b|
    ensures OwedAll(b[i..]) == Owed(b[i]) + OwedAll(b[i + 1..])
    ensures b[i].data == [] || b[i].from.None? ==> Owed(b[i]) == []
    ensures Owed(b[i])[0..] == Owed(b[i])
  {
    assert b[i..][0] == b[i] && b[i..][1..] == b[i + 1..];
  }

  /** The `k`-th packet of a message is the `k`-th slice. */
  lemma OwedAt(m: Recv, k: int)
    requires m.data != [] && m.from.Some? && 0 <= k < GroSegments(|m.data|, m.seg)
    ensures var (a, b) := GroSegmentAt(|m.data|, m.seg, k);
            && 0 <= a <= b <= |m.data| && |Owed(m)| == GroSegments(|m.data|, m.seg)
            && Owed(m)[k] == Packet(m.data[a..b], m.from.value.ip, m.from.value.port)
            && Owed(m)[k..] == [Owed(m)[k]] + Owed(m)[k + 1..]
  {
    SegmentInBounds(|m.data|, m.seg, k);
  }

  lemma Regrouped(cur: seq<Packet>, p: Packet, cur': seq<Packet>, b: seq<Packet>, c: seq<Packet>)
    requires cur == [p] + cur'
    ensures (cur + b) + c == [p] + ((cur' + b) + c)
  {
  }

  lemma OwesOne(m: Recv)
    requires m.data != [] && m.from.Some?
    ensures |Owed(m)| >= 1
  {
    SegmentsPositive(|m.data|, m.seg);
    OwedAt(m, 0);
  }

  /** A message with bytes and a peer owes at least one packet. */
  lemma {:induction false} OwedAtLeast(ms: seq<Recv>)
    requires forall i | 0 <= i < |ms| :: ms[i].data != [] && ms[i].from.Some?
    ensures |OwedAll(ms)| >= |ms|
  {
    if ms != [] {
      OwedAtLeast(ms[1..]);
      OwesOne(ms[0]);
    }
  }

  lemma SegmentsPositive(total: int, segSize: int)
    requires 0 < total
    ensures GroSegments(total, segSize) >= 1
  {
    if 0 < segSize < total { DivStep(total, segSize); }
  }

  /** The writer's messages as another reader's slots would hold them. */
  function Wire(ms: seq<Msg>): seq<Recv> {
    if ms == [] then [] else [Recv(ms[0].data, Some(ms[0].to), ms[0].seg)] + Wire(ms[1..])
  }

  /** Both ends together: what a reader owes for the messages a writer flushed is what was queued. */
  lemma {:induction false} AcrossTheWire(ms: seq<Msg>)
    requires forall i | 0 <= i < |ms| :: ms[i].data != []
    ensures OwedAll(Wire(ms)) == PacketsOf(ms)
  {
    if ms != [] {
      AcrossTheWire(ms[1..]);
      PacketsOfAppend([ms[0]], ms[1..]);
      assert [ms[0]] + ms[1..] == ms && [ms[0]][..0] == [];
      assert PacketsOf([ms[0]]) == Packets(ms[0]);
    }
  }

  /** Reading until the error hands out every segment of every non-empty message, in order, once
      each, whatever the batch boundaries are. */
  method DrainAll(r: Reader) returns (got: seq<Packet>)
    requires r.Valid()
    modifies r, r.store, r.lens, r.from, r.segs
    ensures got == old(r.Left())
    ensures r.Valid() && r.Left() == []
    decreases |r.Left()|
  {
    var p := r.Read();
    if p.None? {
      return [];
    }
    var rest := DrainAll(r);
    return [p.value] + rest;
  }
}
