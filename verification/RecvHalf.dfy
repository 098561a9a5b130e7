/** The fields of struct rsocket that serve receiving, and the code that updates
    them in place. */
module RecvHalves {
  import opened Wire
  import opened EndpointOps
  import opened Calls

  class RecvHalf {
    const cfg: Config
    var rseqNo: u16
    var rseqComp: u16
    var remoteSge: nat
    var rbufBytesAvail: int
    var rbufFreeOffset: nat
    var rbufOffset: nat
    const rbuf: array<byte>
    const rmsg: array<Rmsg>
    var rmsgHead: nat
    var rmsgTail: nat

    ghost function Abs(): Rx
      reads this, rbuf, rmsg
    {
      Rx(rseqNo, rseqComp, remoteSge, rbufBytesAvail, rbufFreeOffset, rbufOffset, rbuf[..], rmsg[..], rmsgHead,
         rmsgTail)
    }

    ghost predicate Laid()
      reads this, rbuf, rmsg
    {
      RxShape(cfg, Abs())
    }

    constructor (c: Config, conn: ConnData)
      requires ValidConfig(c)
      ensures cfg == c && Laid() && fresh(rbuf) && fresh(rmsg)
      ensures Abs() == SaveConn(InitBufs(c), conn).rx
    {
      cfg := c;
      rseqNo, rseqComp, remoteSge := 0, U16(c.rqSize / 2), 1;
      rbufBytesAvail, rbufFreeOffset, rbufOffset := c.Half(), c.Half(), 0;
      rbuf := new byte[c.rbufSize](i => 0);
      rmsg := new Rmsg[c.rqSize + 1](i => Rmsg(0, 0));
      rmsgHead, rmsgTail := 0, 0;
      new;
      assert rbuf[..] == Zeros(c.rbufSize);
      assert rmsg[..] == InitBufs(c).rx.rmsg;
    }

    /** A data message goes to the tail of the ring. */
    method Push(op: nat, data: nat)
      requires Laid()
      modifies `rmsgTail, rmsg
      ensures Laid() && Abs() == old(Abs()).(rmsg := old(rmsg[..])[old(rmsgTail) := Rmsg(op, data)],
                                             rmsgTail := NextEntry(cfg, old(rmsgTail)))
    {
      rmsg[rmsgTail] := Rmsg(op, data);
      rmsgTail := rmsgTail + 1;
      if rmsgTail == cfg.rqSize + 1 {
        rmsgTail := 0;
      }
    }

    /** Half the buffer, from the free offset on, is granted to the peer. */
    method Grant()
      requires Laid()
      modifies `rbufBytesAvail, `rbufFreeOffset, `remoteSge
      ensures Laid()
      ensures Abs() == old(Abs()).(
        rbufBytesAvail := old(rbufBytesAvail) - cfg.Half(),
        rbufFreeOffset :=
          if old(rbufFreeOffset) + cfg.Half() >= cfg.rbufSize then 0 else old(rbufFreeOffset) + cfg.Half(),
        remoteSge := if old(remoteSge) + 1 == SGL_SIZE then 0 else old(remoteSge) + 1)
    {
      rbufBytesAvail := rbufBytesAvail - cfg.rbufSize / 2;
      rbufFreeOffset := rbufFreeOffset + cfg.rbufSize / 2;
      if rbufFreeOffset >= cfg.rbufSize {
        rbufFreeOffset := 0;
      }
      remoteSge := remoteSge + 1;
      if remoteSge == SGL_SIZE {
        remoteSge := 0;
      }
    }

    /** A write of the peer lands in the buffer. */
    method Fill(at: nat, data: seq<byte>)
      requires Laid() && at + |data| <= rbuf.Length
      modifies rbuf
      ensures Laid() && Abs() == old(Abs()).(rbuf := Splice(old(rbuf[..]), at, data))
    {
      var i := 0;
      while i < |data|
        invariant i <= |data|
        invariant rbuf[..] == Splice(old(rbuf[..]), at, data[..i])
      {
        rbuf[at + i] := data[i];
        i := i + 1;
        assert data[..i] == data[..i - 1] + [data[i - 1]];
      }
      assert data[..i] == data;
    }

    /** memcpy out of the receive buffer */
    method CopyOut(buf: array<byte>, at: nat, from: nat, n: nat)
      requires buf != rbuf && at + n <= buf.Length && from + n <= rbuf.Length
      modifies buf
      ensures buf[..] == Splice(old(buf[..]), at, rbuf[from..from + n])
    {
      var i := 0;
      while i < n
        invariant i <= n
        invariant buf[..] == Splice(old(buf[..]), at, rbuf[from..from + i])
      {
        buf[at + i] := rbuf[from + i];
        i := i + 1;
        assert rbuf[from..from + i] == rbuf[from..from + i - 1] + [rbuf[from + i - 1]];
      }
    }

    /** The part of a pass that copies `size` bytes from `offset` on, wrapping at
        the end of the buffer. */
    method CopyRing(buf: array<byte>, at: nat, offset: nat, size: nat) returns (offset': nat)
      requires buf != rbuf && at + size <= buf.Length && offset <= rbuf.Length && size <= rbuf.Length
      modifies buf
      ensures offset' == RingStop(rbuf.Length, offset, size)
      ensures buf[..] == Splice(old(buf[..]), at, RingBytes(rbuf[..], offset, size))
    {
      hide Splice;
      var end := rbuf.Length - offset;
      if size > end {
        CopyOut(buf, at, offset, end);
        CopyOut(buf, at + end, 0, size - end);
        assert rbuf[offset..offset + end] == rbuf[..][offset..] && rbuf[0..0 + (size - end)] == rbuf[..][..size - end];
        SpliceJoin(old(buf[..]), at, rbuf[..][offset..], rbuf[..][..size - end]);
        offset' := size - end;
      } else {
        CopyOut(buf, at, offset, size);
        assert rbuf[offset..offset + size] == rbuf[..][offset..offset + size];
        offset' := offset + size;
      }
    }

    /** What a pass does to the message at the head. */
    method TakeHead(left: nat) returns (size: nat)
      requires Laid() && HeadFits(cfg, Abs())
      modifies `rseqNo, `rmsgHead, rmsg
      ensures Laid() && (Abs(), size) == EndpointOps.TakeHead(cfg, old(Abs()), left)
    {
      var m := rmsg[rmsgHead];
      if left < m.data {
        size := left;
        rmsg[rmsgHead] := Rmsg(m.op, m.data - left);
      } else {
        rseqNo := U16(rseqNo + 1);
        size := m.data;
        rmsgHead := rmsgHead + 1;
        if rmsgHead == cfg.rqSize + 1 {
          rmsgHead := 0;
        }
      }
    }

    /** One pass of rrecv's copy loop. */
    method CopyChunk(buf: array<byte>, at: nat, left: nat) returns (size: nat)
      requires Laid() && HeadFits(cfg, Abs()) && buf != rbuf && at + left <= buf.Length
      modifies this, rmsg, buf
      ensures Laid()
      ensures var (rx, out) := RecvChunk(cfg, old(Abs()), left);
        && Abs() == rx && size == |out| <= left && buf[..] == Splice(old(buf[..]), at, out)
    {
      hide Splice, RingBytes;
      size := TakeHead(left);
      rbufOffset := CopyRing(buf, at, rbufOffset, size);
      rbufBytesAvail := rbufBytesAvail + size;
    }

    /** The copy loop of rrecv: takes what is queued, up to `len` bytes. */
    method Copy(buf: array<byte>, at: nat, len: nat) returns (n: nat)
      requires Laid() && Live(cfg, Abs()) && buf != rbuf && at + len <= buf.Length
      modifies this, rmsg, buf
      ensures Laid()
      ensures var (rx, out) := RecvLoop(cfg, old(Abs()), len);
        Abs() == rx && n == |out| && buf[..] == Splice(old(buf[..]), at, out)
    {
      hide Splice, RecvChunk, RecvLoop, Continues, Between;
      n := 0;
      ghost var copied: seq<byte> := [];
      SpliceNone(buf[..], at);
      LoopStart(cfg, Abs(), len);
      while n < len && rmsgHead != rmsgTail
        invariant n == |copied| <= len && Laid() && Live(cfg, Abs())
        invariant buf[..] == Splice(old(buf[..]), at, copied)
        invariant Continues(cfg, old(Abs()), len, Abs(), copied)
        decreases Between(cfg, rmsgHead, rmsgTail), len - n
      {
        LoopStep(cfg, old(Abs()), len, Abs(), copied);
        ghost var out := RecvChunk(cfg, Abs(), len - n).1;
        var size := CopyChunk(buf, at + n, len - n);
        SpliceJoin(old(buf[..]), at, copied, out);
        n, copied := n + size, copied + out;
      }
      LoopEnd(cfg, old(Abs()), len, Abs(), copied);
    }

    /** rs_peek: what the copy loop would return, without taking it. */
    method Peek(buf: array<byte>, at: nat, len: nat) returns (n: nat)
      requires Laid() && Live(cfg, Abs()) && buf != rbuf && at + len <= buf.Length
      modifies buf
      ensures var out := RecvLoop(cfg, Abs(), len).1; n == |out| && buf[..] == Splice(old(buf[..]), at, out)
    {
      hide Splice, RecvChunk, RecvLoop, Continues, Between, RingBytes, RingStop;
      n := 0;
      var head, offset := rmsgHead, rbufOffset;
      ghost var copied: seq<byte>, cur := [], Abs();
      SpliceNone(buf[..], at);
      LoopStart(cfg, Abs(), len);
      while n < len && head != rmsgTail
        invariant n == |copied| <= len && RxShape(cfg, cur) && Live(cfg, cur)
        invariant buf[..] == Splice(old(buf[..]), at, copied)
        invariant Continues(cfg, Abs(), len, cur, copied)
        invariant n < len ==> SameQueue(Abs(), cur) && head == cur.rmsgHead && offset == cur.rbufOffset
        decreases Between(cfg, cur.rmsgHead, cur.rmsgTail), len - n
      {
        LoopStep(cfg, Abs(), len, cur, copied);
        PeekStep(cfg, cur, len - n);
        var m := rmsg[head];
        var size := len - n;
        if m.data <= size {
          size := m.data;
          head := head + 1;
          if head == cfg.rqSize + 1 {
            head := 0;
          }
        }
        ghost var (rx, out) := RecvChunk(cfg, cur, len - n);
        offset := CopyRing(buf, at + n, offset, size);
        SpliceJoin(old(buf[..]), at, copied, out);
        n, copied, cur := n + size, copied + out, rx;
      }
      LoopEnd(cfg, Abs(), len, cur, copied);
    }
  }

  /** The same messages and bytes, read up to the same or another point. */
  ghost predicate SameQueue(rx: Rx, rx': Rx) {
    rx'.rmsg == rx.rmsg && rx'.rmsgTail == rx.rmsgTail && rx'.rbuf == rx.rbuf
  }

  /** The loop started in rx0 has copied `copied` and goes on from `cur`. */
  ghost predicate Continues(c: Config, rx0: Rx, len: nat, cur: Rx, copied: seq<byte>) {
    && RxShape(c, rx0) && Live(c, rx0) && RxShape(c, cur) && Live(c, cur) && |copied| <= len
    && RecvLoop(c, rx0, len) == var (rx, out) := RecvLoop(c, cur, len - |copied|); (rx, copied + out)
  }

  lemma LoopStart(c: Config, rx: Rx, len: nat)
    requires RxShape(c, rx) && Live(c, rx)
    ensures Continues(c, rx, len, rx, [])
  {
    assert [] + RecvLoop(c, rx, len).1 == RecvLoop(c, rx, len).1;
  }

  lemma LoopEnd(c: Config, rx0: Rx, len: nat, cur: Rx, copied: seq<byte>)
    requires Continues(c, rx0, len, cur, copied) && (|copied| == len || !HaveRdata(cur))
    ensures RecvLoop(c, rx0, len) == (cur, copied)
  {
    assert copied + [] == copied;
  }

  /** One pass of the loop, and that it makes progress. */
  lemma LoopStep(c: Config, rx0: Rx, len: nat, cur: Rx, copied: seq<byte>)
    requires Continues(c, rx0, len, cur, copied) && |copied| < len && HaveRdata(cur)
    ensures HeadFits(c, cur)
    ensures var (rx1, out) := RecvChunk(c, cur, len - |copied|);
      && RxShape(c, rx1) && Live(c, rx1) && |out| <= len - |copied|
      && (Between(c, rx1.rmsgHead, rx1.rmsgTail) < Between(c, cur.rmsgHead, cur.rmsgTail)
          || (rx1.rmsgHead == cur.rmsgHead && rx1.rmsgTail == cur.rmsgTail && |out| == len - |copied|))
      && Continues(c, rx0, len, rx1, copied + out)
  {
    hide RecvChunk, Between;
    ChunkProgress(c, cur, len - |copied|);
    var (rx1, out) := RecvChunk(c, cur, len - |copied|);
    var rest := RecvLoop(c, rx1, len - |copied| - |out|).1;
    assert copied + (out + rest) == (copied + out) + rest;
  }

  lemma PeekStep(c: Config, rx: Rx, left: nat)
    requires HeadFits(c, rx)
    ensures var (rx1, out) := RecvChunk(c, rx, left);
      var m := rx.rmsg[rx.rmsgHead]; var size := if m.data <= left then m.data else left;
      && out == RingBytes(rx.rbuf, rx.rbufOffset, size) && rx1.rbufOffset == RingStop(c.rbufSize, rx.rbufOffset, size)
      && (m.data <= left ==> SameQueue(rx, rx1) && rx1.rmsgHead == NextEntry(c, rx.rmsgHead))
  {
  }
}
