/** Batched UDP I/O (internal/tunnelapp/udpio.go, and enqueue/flushWriter of tunnelapp.go).

    The writer collects sealed packets into a fixed array of slots, merging where `Gso` allows,
    and hands whole messages to the kernel; the reader takes whole messages from the kernel and
    hands out packets.  Batching must be invisible: what goes in is what comes out, in order, once
    each.  A destination is an address and a port, since the merge test ignores the zone. */
module BatchIo {
  import opened Prelude
  import opened Gso

  datatype Addr = Addr(ip: int, port: int, zone: int)
  datatype Packet = Packet(data: Bytes, ip: int, port: int)
  /** One entry of sendmmsg / recvmmsg: payload, peer, and the segment size in its control data. */
  datatype Msg = Msg(to: Addr, data: Bytes, seg: int)

  function Tag(pieces: seq<Bytes>, to: Addr): (ps: seq<Packet>)
    ensures |ps| == |pieces|
  {
    seq(|pieces|, i requires 0 <= i < |pieces| => Packet(pieces[i], to.ip, to.port))
  }

  /** The datagrams a message stands for, on either side. */
  function Packets(m: Msg): seq<Packet> {
    Tag(Cut(m.data, m.seg), m.to)
  }

  function PacketsOf(ms: seq<Msg>): seq<Packet> {
    if ms == [] then [] else PacketsOf(ms[..|ms| - 1]) + Packets(ms[|ms| - 1])
  }

  lemma {:induction false} PacketsOfAppend(a: seq<Msg>, b: seq<Msg>)
    ensures PacketsOf(a + b) == PacketsOf(a) + PacketsOf(b)
    decreases |b|
  {
    if b == [] {
      assert a + b == a;
    } else {
      var init, last := b[..|b| - 1], b[|b| - 1];
      assert (a + b)[..|a + b| - 1] == a + init && (a + b)[|a + b| - 1] == last;
      PacketsOfAppend(a, init);
      Assoc(PacketsOf(a), PacketsOf(init), Packets(last));
    }
  }

  /** A single unmerged packet is its own message. */
  lemma SinglePacket(m: Msg)
    requires m.seg == 0
    ensures Packets(m) == [Packet(m.data, m.to.ip, m.to.port)]
  {
    CutShort(m.data, 0);
  }

  /** An accepted merge adds exactly one packet to its message. */
  lemma MergePackets(r: SegRun, m: Msg, pkt: Bytes)
    requires RunOk(r) && |m.data| == r.total && m.seg == ControlSize(r) && CanAppend(r, |pkt|)
    ensures Packets(Msg(m.to, m.data + pkt, ControlSize(Append(r, |pkt|)))) ==
            Packets(m) + [Packet(pkt, m.to.ip, m.to.port)]
  {
    AppendCut(r, m.data, pkt);
  }

  // ---------------------------------------------------------------- the writer

  /** The packet a caller expects to see on the wire: none if it is empty or larger than a slot. */
  function Fit(pkt: Bytes, to: Addr, slot: nat): seq<Packet> {
    if 0 < |pkt| <= slot then [Packet(pkt, to.ip, to.port)] else []
  }

  class BatchWriter {
    const gso: bool
    const cap: nat
    const slot: nat
    const store: array2<Byte>
    const addrs: array<Addr>
    const runs: array<SegRun>
    var n: nat
    /** The pending messages; the arrays hold exactly these. */
    ghost var msgs: seq<Msg>

    ghost predicate Row(i: nat)
      requires i < store.Length0 && i < addrs.Length && i < runs.Length && i < |msgs|
      reads this, store, addrs, runs
    {
      && RunOk(runs[i]) && runs[i].total <= store.Length1 && (!gso ==> runs[i].segSize == 0)
      && |msgs[i].data| == runs[i].total
      && (forall j | 0 <= j < runs[i].total :: msgs[i].data[j] == store[i, j])
      && msgs[i].to == addrs[i] && msgs[i].seg == ControlSize(runs[i])
    }

    ghost predicate Valid()
      reads this, store, addrs, runs
    {
      && store.Length0 == addrs.Length == runs.Length == cap && store.Length1 == slot
      && 0 < cap && n <= cap && |msgs| == n
      && forall i: nat {:trigger Row(i)} | i < n :: Row(i)
    }

    constructor (gso: bool, cap: nat, maxPacket: nat)
      requires 0 < cap
      ensures Valid() && this.gso == gso && this.cap == cap && n == 0 && msgs == []
      ensures slot == if gso then 32768 else maxPacket
      ensures fresh(store) && fresh(addrs) && fresh(runs)
    {
      this.gso, this.cap, this.slot := gso, cap, if gso then BURST else maxPacket;
      store := new Byte[cap, if gso then BURST else maxPacket]((_, _) => 0);
      addrs := new Addr[cap](_ => Addr(0, 0, 0));
      runs := new SegRun[cap](_ => SegRun(0, 0, false));
      n, msgs := 0, [];
    }

    /** `copy(store[i][at:], pkt)`. */
    method CopyInto(i: nat, at: nat, pkt: Bytes)
      requires i < store.Length0 && at + |pkt| <= store.Length1
      modifies store
      ensures forall a, b | 0 <= a < store.Length0 && 0 <= b < store.Length1 ::
                store[a, b] == if a == i && at <= b < at + |pkt| then pkt[b - at] else old(store[a, b])
    {
      for j := 0 to |pkt|
        invariant forall a, b | 0 <= a < store.Length0 && 0 <= b < store.Length1 ::
                    store[a, b] == if a == i && at <= b < at + j then pkt[b - at] else old(store[a, b])
      {
        store[i, at + j] := pkt[j];
      }
    }

    /** `add`: false means the batch is full; a packet larger than a slot is dropped. */
    method Add(pkt: Bytes, to: Addr) returns (ok: bool)
      requires Valid()
      modifies this`n, this`msgs, store, addrs, runs
      ensures Valid()
      ensures ok ==> PacketsOf(msgs) == old(PacketsOf(msgs)) + Fit(pkt, to, slot)
      ensures !ok ==> n == cap && msgs == old(msgs) && |pkt| > 0
      ensures old(n) < cap ==> ok
      // every packet that is neither empty nor larger than a slot goes in, and no other
      ensures ok ==> PacketsOf(msgs) == old(PacketsOf(msgs)) + if 0 < |pkt| <= slot then [Packet(pkt, to.ip, to.port)] else []
      // and into the last message if that may take it
      ensures |pkt| > 0 && old(LastTakes(pkt, to)) ==> ok && n == old(n)
    {
      if |pkt| == 0 {
        return true;
      }
      var merged := TryMerge(pkt, to);
      if merged {
        return true;
      }
      if n >= cap {
        return false;
      }
      if |pkt| > slot {
        return true;
      }
      Open(pkt, to);
      return true;
    }

    /** The last message goes to the same address and port, and the packet can be merged into it. */
    ghost predicate LastTakes(pkt: Bytes, to: Addr)
      requires Valid()
      reads this, store, addrs, runs
    {
      && gso && n > 0 && addrs[n - 1].ip == to.ip && addrs[n - 1].port == to.port
      && CanAppend(runs[n - 1], |pkt|) && runs[n - 1].total + |pkt| <= slot
    }

    /** The first part of `add`. */
    method TryMerge(pkt: Bytes, to: Addr) returns (merged: bool)
      requires Valid() && |pkt| > 0
      modifies this`msgs, store, runs
      ensures Valid() && merged == old(LastTakes(pkt, to))
      ensures merged ==> PacketsOf(msgs) == old(PacketsOf(msgs)) + [Packet(pkt, to.ip, to.port)] && |pkt| <= slot
      ensures !merged ==> msgs == old(msgs) && forall i | 0 <= i < n :: runs[i] == old(runs[i])
    {
      merged := false;
      if gso && n > 0 {
        var i := n - 1;
        assert Row(i);
        if addrs[i].port == to.port && addrs[i].ip == to.ip && CanAppend(runs[i], |pkt|)
           && runs[i].total + |pkt| <= slot {
          Merge(i, pkt);
          return true;
        }
      }
    }

    /** Append to the last message. */
    method Merge(i: nat, pkt: Bytes)
      requires Valid() && gso && n > 0 && i == n - 1
      requires CanAppend(runs[i], |pkt|) && runs[i].total + |pkt| <= slot
      modifies this`msgs, store, runs
      ensures Valid()
      ensures PacketsOf(msgs) == old(PacketsOf(msgs)) + [Packet(pkt, old(addrs[i]).ip, old(addrs[i]).port)]
      ensures 0 < |pkt| <= slot
    {
      assert Row(i);
      ghost var m := msgs[i];
      MergePackets(runs[i], m, pkt);
      AppendCut(runs[i], m.data, pkt);
      CopyInto(i, runs[i].total, pkt);
      runs[i] := Append(runs[i], |pkt|);
      msgs := msgs[..i] + [Msg(m.to, m.data + pkt, ControlSize(runs[i]))];
      assert msgs[..i] == old(msgs)[..i];
      forall k: nat | k < n ensures Row(k) { assert old(Row(k)); }
    }

    /** Start a new message in the next slot. */
    method Open(pkt: Bytes, to: Addr)
      requires Valid() && n < cap && 0 < |pkt| <= slot
      modifies this`n, this`msgs, store, addrs, runs
      ensures Valid()
      ensures PacketsOf(msgs) == old(PacketsOf(msgs)) + [Packet(pkt, to.ip, to.port)]
    {
      var i := n;
      CopyInto(i, 0, pkt);
      runs[i] := SegRun(|pkt|, 0, false);
      addrs[i] := to;
      n := n + 1;
      msgs := msgs + [Msg(to, pkt, 0)];
      SinglePacket(Msg(to, pkt, 0));
      assert msgs[..|msgs| - 1] == old(msgs);
      forall k: nat | k < n ensures Row(k) { if k < i { assert old(Row(k)); } }
    }

    /** `flush`: every pending message goes to the kernel, in slot order. */
    method Flush() returns (sent: seq<Msg>)
      requires Valid()
      modifies this`n, this`msgs
      ensures Valid() && n == 0 && msgs == []
      ensures sent == old(msgs)
    {
      sent := [];
      for i := 0 to n
        invariant Valid() && msgs == old(msgs) && n == old(n)
        invariant sent == msgs[..i]
      {
        assert Row(i);
        var data := RowData(i);
        sent := sent + [Msg(addrs[i], data, ControlSize(runs[i]))];
        assert msgs[..i + 1] == msgs[..i] + [msgs[i]];
      }
      n, msgs := 0, [];
    }

    /** `store[i][:runs[i].total]`. */
    method RowData(i: nat) returns (data: Bytes)
      requires Valid() && i < n
      ensures data == msgs[i].data
    {
      assert Row(i);
      data := [];
      for j := 0 to runs[i].total
        invariant data == msgs[i].data[..j]
      {
        data := data + [store[i, j]];
      }
    }

    /** `enqueue`: on a full batch, flush and add again.  The second add never fails, so the
        source's tx-dropped branch is dead. */
    method Enqueue(pkt: Bytes, to: Addr) returns (sent: seq<Msg>)
      requires Valid()
      modifies this`n, this`msgs, store, addrs, runs
      ensures Valid()
      ensures PacketsOf(sent) + PacketsOf(msgs) == old(PacketsOf(msgs)) + Fit(pkt, to, slot)
      ensures PacketsOf(sent) + PacketsOf(msgs) ==
              old(PacketsOf(msgs)) + if 0 < |pkt| <= slot then [Packet(pkt, to.ip, to.port)] else []
    {
      sent := [];
      var ok := Add(pkt, to);
      if !ok {
        sent := Flush();
        ok := Add(pkt, to);
        assert ok;
      }
    }
  }

  datatype Op = Enq(pkt: Bytes, to: Addr) | FlushNow

  /** The packets of `ops` that are non-empty and fit a slot, in order. */
  function Fitting(ops: seq<Op>, slot: nat): seq<Packet> {
    if ops == [] then []
    else
      var op := ops[|ops| - 1];
      Fitting(ops[..|ops| - 1], slot) + if op.Enq? then Fit(op.pkt, op.to, slot) else []
  }

  /** All packets handed in, in order. */
  function Handed(ops: seq<Op>): seq<Packet> {
    if ops == [] then []
    else
      var op := ops[|ops| - 1];
      Handed(ops[..|ops| - 1]) + if op.Enq? then [Packet(op.pkt, op.to.ip, op.to.port)] else []
  }

  lemma {:induction false} FittingAll(ops: seq<Op>, slot: nat)
    requires forall i | 0 <= i < |ops| && ops[i].Enq? :: 0 < |ops[i].pkt| <= slot
    ensures Fitting(ops, slot) == Handed(ops)
    decreases |ops|
  {
    if ops != [] { FittingAll(ops[..|ops| - 1], slot); }
  }

  lemma Regroup(before: seq<Packet>, pending: seq<Packet>, out: seq<Packet>, left: seq<Packet>, ops: seq<Op>, i: nat, slot: nat)
    requires i < |ops| && before + pending == Fitting(ops[..i], slot)
    requires out + left == pending + if ops[i].Enq? then Fit(ops[i].pkt, ops[i].to, slot) else []
    ensures (before + out) + left == Fitting(ops[..i + 1], slot)
  {
    assert ops[..i + 1][..i] == ops[..i];
    assert (before + out) + left == before + (out + left);
  }

  /** Over any sequence of enqueues and flushes, ended by a flush: the messages given to the
      kernel, each cut at its control size, are exactly the fitting packets, in order, once each. */
  method Drive(w: BatchWriter, ops: seq<Op>) returns (sent: seq<Msg>)
    requires w.Valid() && w.n == 0
    modifies w`n, w`msgs, w.store, w.addrs, w.runs
    ensures w.Valid() && w.n == 0
    ensures PacketsOf(sent) == Fitting(ops, w.slot)
    ensures (forall i | 0 <= i < |ops| && ops[i].Enq? :: 0 < |ops[i].pkt| <= w.slot) ==> PacketsOf(sent) == Handed(ops)
  {
    sent := [];
    for i := 0 to |ops|
      invariant w.Valid()
      invariant PacketsOf(sent) + PacketsOf(w.msgs) == Fitting(ops[..i], w.slot)
    {
      ghost var before, pending := PacketsOf(sent), PacketsOf(w.msgs);
      var out := Step(w, ops[i]);
      PacketsOfAppend(sent, out);
      Regroup(before, pending, PacketsOf(out), PacketsOf(w.msgs), ops, i, w.slot);
      sent := sent + out;
    }
    assert ops[..|ops|] == ops;
    var last := w.Flush();
    PacketsOfAppend(sent, last);
    sent := sent + last;
    if forall i | 0 <= i < |ops| && ops[i].Enq? :: 0 < |ops[i].pkt| <= w.slot { FittingAll(ops, w.slot); }
  }

  method Step(w: BatchWriter, op: Op) returns (out: seq<Msg>)
    requires w.Valid()
    modifies w`n, w`msgs, w.store, w.addrs, w.runs
    ensures w.Valid()
    ensures PacketsOf(out) + PacketsOf(w.msgs) ==
            old(PacketsOf(w.msgs)) + (if op.Enq? then Fit(op.pkt, op.to, w.slot) else [])
  {
    if op.Enq? {
      out := w.Enqueue(op.pkt, op.to);
    } else {
      out := w.Flush();
    }
  }
}
