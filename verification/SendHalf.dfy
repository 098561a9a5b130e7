/** The fields of struct rsocket that serve sending, and the code that updates
    them in place, each method proved to do what its specification function says. */
module SendHalves {
  import opened Common
  import opened Wire
  import opened EndpointOps

  /** The fields used for sending, and the adapter's send queue: every request
      posted, and how many of them completed. */
  class SendHalf {
    const cfg: Config
    var ctrlSeqno: u32
    var ctrlMaxSeqno: u32
    var sqeAvail: int
    var sseqNo: u16
    var sseqComp: u16
    var targetSgl: seq<Sge>
    var targetSge: nat
    var sbufBytesAvail: int
    const sbuf: array<byte>
    var ssglAddr: nat
    var ctrlBuf: seq<Sge>
    var posted: seq<Wr>
    var completed: nat

    ghost function Abs(): Tx
      reads this, sbuf
    {
      Tx(ctrlSeqno, ctrlMaxSeqno, sqeAvail, sseqNo, sseqComp, targetSgl, targetSge,
         sbufBytesAvail, sbuf[..], ssglAddr, ctrlBuf)
    }

    ghost predicate Laid()
      reads this, sbuf
    {
      TxShape(cfg, Abs()) && completed <= |posted|
    }

    constructor (c: Config, conn: ConnData)
      requires ValidConfig(c)
      ensures cfg == c && Laid() && fresh(sbuf)
      ensures Abs() == SaveConn(InitBufs(c), conn).tx && posted == [] && completed == 0
    {
      cfg := c;
      ctrlSeqno, ctrlMaxSeqno, sqeAvail := 0, QP_CTRL_SIZE, c.sqSize - QP_CTRL_SIZE;
      sseqNo, sseqComp := 0, conn.credits;
      targetSgl, targetSge := [conn.dataBuf, Sge(0, 0)], 0;
      sbufBytesAvail, ssglAddr := c.sbufSize, 0;
      sbuf := new byte[c.sbufSize](i => 0);
      ctrlBuf := [Sge(0, 0), Sge(0, 0), Sge(0, 0), Sge(0, 0)];
      posted, completed := [], 0;
      new;
      assert sbuf[..] == Zeros(c.sbufSize);
      assert targetSgl == SaveConn(InitBufs(c), conn).tx.targetSgl;
    }

    /** The write uses up `length` bytes of the current target buffer. */
    method UseTarget(length: nat) returns (addr: int)
      requires Laid()
      modifies `targetSgl, `targetSge
      ensures Laid() && addr == old(targetSgl[targetSge].addr)
      ensures Abs() == old(Abs()).(
        targetSgl := old(targetSgl)[old(targetSge) := Sge(addr + length, old(targetSgl[targetSge].length) - length)],
        targetSge := if old(targetSgl[targetSge].length) != length then old(targetSge)
                     else if old(targetSge) + 1 == SGL_SIZE then 0 else old(targetSge) + 1)
    {
      addr := targetSgl[targetSge].addr;
      targetSgl := targetSgl[targetSge := Sge(addr + length, targetSgl[targetSge].length - length)];
      if targetSgl[targetSge].length == 0 {
        targetSge := targetSge + 1;
        if targetSge == SGL_SIZE {
          targetSge := 0;
        }
      }
    }

    /** rs_write_data */
    method WriteData(src: Source, data: seq<byte>, ringUse: nat)
      requires Laid() && |data| <= MAX_TRANSFER
      modifies `sseqNo, `sqeAvail, `sbufBytesAvail, `targetSgl, `targetSge, `posted
      ensures Laid()
      ensures (Abs(), posted) == var (tx, wrs) := EndpointOps.WriteData(cfg, old(Abs()), src, data, ringUse);
        (tx, old(posted) + wrs)
    {
      hide PostWriteMsg;
      var length := |data|;
      sseqNo := U16(sseqNo + 1);
      sqeAvail := sqeAvail - 1;
      if cfg.msgSend {
        sqeAvail := sqeAvail - 1;
      }
      sbufBytesAvail := sbufBytesAvail - length;
      var addr := UseTarget(length);
      var intent := Intent(Some(Bytes(data)), ringUse);
      posted := posted + PostWriteMsg(cfg.msgSend, src, PeerRbuf(addr), MsgSet(OP_DATA, length), intent);
    }

    /** The part of rs_send_credits that posts a grant of `sge` into `slot` of the
        peer, staging it in the control buffer unless it can go inline. */
    method PostGrant(sge: Sge, slot: nat, msg: nat)
      requires Laid() && msg < 8 * OP_UNIT
      modifies `ctrlSeqno, `ctrlBuf, `posted
      ensures Laid()
      ensures var seqno := if cfg.msgSend then U32(old(ctrlSeqno) + 1) else old(ctrlSeqno);
        var inl := cfg.sqInline >= SGE_BYTES; var buf := seqno % QP_CTRL_SIZE;
        && Abs() == old(Abs()).(ctrlSeqno := seqno, ctrlBuf := if inl then old(ctrlBuf) else old(ctrlBuf)[buf := sge])
        && posted == old(posted) +
           PostWriteMsg(cfg.msgSend, if inl then InlineSge(sge) else CtrlBuf(buf), PeerSgl(slot), msg,
                        Intent(Some(SgeVal(sge)), 0))
    {
      hide PostWriteMsg;
      if cfg.msgSend {
        ctrlSeqno := U32(ctrlSeqno + 1);
      }
      var src := InlineSge(sge);
      if cfg.sqInline < SGE_BYTES {
        ctrlBuf := ctrlBuf[ctrlSeqno % QP_CTRL_SIZE := sge];
        src := CtrlBuf(ctrlSeqno % QP_CTRL_SIZE);
      }
      posted := posted + PostWriteMsg(cfg.msgSend, src, PeerSgl(slot), msg, Intent(Some(SgeVal(sge)), 0));
    }

    /** The oldest outstanding request has completed: what it held is returned.
        `closes` when it was a DISCONNECT. */
    method Complete(ghost e: Endpoint) returns (closes: bool)
      requires Laid() && completed < |posted| && e.tx == Abs()
      modifies `ctrlMaxSeqno, `sqeAvail, `sbufBytesAvail, `completed
      ensures Laid() && completed == old(completed) + 1
      ensures var w := posted[old(completed)];
        && Abs() == PollSend(e, w.id, w.msgSend).tx
        && closes == (MsgOp(w.id) == OP_CTRL && MsgData(w.id) == CTRL_DISCONNECT)
    {
      var w := posted[completed];
      var op := MsgOp(w.id);
      closes := false;
      if op == OP_SGL {
        ctrlMaxSeqno := U32(ctrlMaxSeqno + 1);
      } else if op == OP_CTRL {
        ctrlMaxSeqno := U32(ctrlMaxSeqno + 1);
        closes := MsgData(w.id) == CTRL_DISCONNECT;
      } else if op == OP_IOMAP_SGL {
        sqeAvail := sqeAvail + 1;
        if !w.msgSend {
          sbufBytesAvail := sbufBytesAvail + IOMAP_BYTES;
        }
      } else {
        sqeAvail := sqeAvail + 1;
        sbufBytesAvail := sbufBytesAvail + MsgData(w.id);
      }
      completed := completed + 1;
    }

    /** memcpy into the copy ring */
    method Store(at: nat, data: seq<byte>)
      requires at + |data| <= sbuf.Length
      modifies sbuf
      ensures sbuf[..] == Splice(old(sbuf[..]), at, data)
    {
      var i := 0;
      while i < |data|
        invariant i <= |data|
        invariant sbuf[..] == Splice(old(sbuf[..]), at, data[..i])
      {
        sbuf[at + i] := data[i];
        i := i + 1;
        assert data[..i] == data[..i - 1] + [data[i - 1]];
      }
      assert data[..i] == data;
    }

    /** Copying `data` behind the cursor, in one piece or two. */
    method StoreRing(data: seq<byte>)
      requires ssglAddr < sbuf.Length && |data| <= sbuf.Length
      modifies sbuf
      ensures sbuf[..] == RingPut(old(sbuf[..]), ssglAddr, data)
    {
      hide Splice, RingPut;
      RingPutPieces(sbuf[..], ssglAddr, data);
      var left := sbuf.Length - ssglAddr;
      if |data| <= left {
        Store(ssglAddr, data);
      } else {
        Store(ssglAddr, data[..left]);
        Store(0, data[left..]);
      }
    }

    /** The cursor moves behind the `n` bytes just stored. */
    method MoveCursor(n: nat)
      requires Laid() && n <= sbuf.Length
      modifies `ssglAddr
      ensures Laid() && Abs() == old(Abs()).(ssglAddr := RingNext(cfg.sbufSize, old(ssglAddr), n))
    {
      var left := sbuf.Length - ssglAddr;
      if n < left {
        ssglAddr := ssglAddr + n;
      } else {
        ssglAddr := n - left;
      }
    }

    /** One iteration of rsend's loop: `data` goes inline, or through the ring. */
    method SendChunk(data: seq<byte>)
      requires Laid() && |data| <= MAX_TRANSFER && |data| <= cfg.sbufSize
      modifies this, sbuf
      ensures Laid() && completed == old(completed)
      ensures (Abs(), posted) == var (tx, wrs) := Transfer(cfg, old(Abs()), data, false); (tx, old(posted) + wrs)
    {
      var n := |data|;
      if n <= cfg.sqInline {
        WriteData(InlineBytes(data), data, 0);
      } else {
        StoreRing(data);
        WriteData(RingGather(sbuf.Length, ssglAddr, n), data, n);
        MoveCursor(n);
      }
    }

    /** rs_write_iomap */
    method WriteIomap(src: Source, iom: seq<byte>, index: nat, ringUse: nat)
      requires Laid() && index < 0x1_0000
      modifies `sseqNo, `sqeAvail, `sbufBytesAvail, `posted
      ensures Laid() && Abs() == old(Abs()).(sseqNo := U16(old(sseqNo) + 1), sqeAvail := old(sqeAvail) - SqeUse(cfg),
                                             sbufBytesAvail := old(sbufBytesAvail) - IOMAP_BYTES)
      ensures posted == old(posted) + PostWriteMsg(cfg.msgSend, src, PeerIomap(index), MsgSet(OP_IOMAP_SGL, index),
                                                   Intent(Some(Bytes(iom)), ringUse))
    {
      hide PostWriteMsg;
      sseqNo := U16(sseqNo + 1);
      sqeAvail := sqeAvail - 1;
      if cfg.msgSend {
        sqeAvail := sqeAvail - 1;
      }
      sbufBytesAvail := sbufBytesAvail - IOMAP_BYTES;
      var intent := Intent(Some(Bytes(iom)), ringUse);
      posted := posted + PostWriteMsg(cfg.msgSend, src, PeerIomap(index), MsgSet(OP_IOMAP_SGL, index), intent);
    }

    /** One iteration of rs_send_iomaps: the mapping goes inline, or through the ring. */
    method SendIomap(iom: seq<byte>, index: nat)
      requires Laid() && |iom| == IOMAP_BYTES <= cfg.sbufSize && index < 0x1_0000
      modifies this, sbuf
      ensures Laid() && completed == old(completed)
      ensures (Abs(), posted) == var (tx, wrs) := EndpointOps.SendIomap(cfg, old(Abs()), iom, index);
        (tx, old(posted) + wrs)
    {
      hide PostWriteMsg, RingPut, RingNext, RingGather;
      if cfg.sqInline >= IOMAP_BYTES {
        WriteIomap(InlineBytes(iom), iom, index, 0);
      } else {
        StoreRing(iom);
        WriteIomap(RingGather(sbuf.Length, ssglAddr, IOMAP_BYTES), iom, index, IOMAP_BYTES);
        MoveCursor(IOMAP_BYTES);
      }
    }

    /** rs_copy_iov into the ring at `at`: the next `len` bytes behind the position
        (cur, offset) of the buffers `iov`. */
    method CopyIov(at: nat, iov: seq<seq<byte>>, cur: nat, offset: nat, len: nat) returns (cur': nat, offset': nat)
      requires InIov(iov, cur, offset) && len <= |After(iov, cur, offset)| && at + len <= sbuf.Length
      modifies sbuf
      ensures InIov(iov, cur', offset') && After(iov, cur', offset') == After(iov, cur, offset)[len..]
      ensures sbuf[..] == Splice(old(sbuf[..]), at, After(iov, cur, offset)[..len])
    {
      hide Splice, After;
      ghost var all := After(iov, cur, offset);
      cur', offset' := cur, offset;
      var left: nat := len;
      SpliceNone(sbuf[..], at);
      assert all[..0] == [];
      while left > 0
        invariant left <= len && InIov(iov, cur', offset') && After(iov, cur', offset') == all[len - left..]
        invariant sbuf[..] == Splice(old(sbuf[..]), at, all[..len - left])
        decreases left, |iov| - cur'
      {
        AfterEnd(iov, cur', offset');
        var size := |iov[cur']| - offset';
        AfterSplit(iov, cur', offset');
        if size > left {
          AfterPart(iov, cur', offset', left);
          SpliceMore(old(sbuf[..]), at, all, len - left, left);
          Store(at + len - left, iov[cur'][offset'..offset' + left]);
          offset' := offset' + left;
          left := 0;
        } else {
          SpliceMore(old(sbuf[..]), at, all, len - left, size);
          Store(at + len - left, iov[cur'][offset'..]);
          left := left - size;
          cur', offset' := cur' + 1, 0;
        }
      }
    }

    /** Gathering the next `n` bytes of `iov` behind the cursor. */
    method StoreIov(iov: seq<seq<byte>>, cur: nat, offset: nat, n: nat) returns (cur': nat, offset': nat)
      requires ssglAddr < sbuf.Length && n <= sbuf.Length
      requires InIov(iov, cur, offset) && n <= |After(iov, cur, offset)|
      modifies sbuf
      ensures InIov(iov, cur', offset') && After(iov, cur', offset') == After(iov, cur, offset)[n..]
      ensures sbuf[..] == RingPut(old(sbuf[..]), ssglAddr, After(iov, cur, offset)[..n])
    {
      hide After, Splice, RingPut;
      RingPutPieces(sbuf[..], ssglAddr, After(iov, cur, offset)[..n]);
      var left := sbuf.Length - ssglAddr;
      if n <= left {
        cur', offset' := CopyIov(ssglAddr, iov, cur, offset, n);
      } else {
        ghost var all := After(iov, cur, offset);
        cur', offset' := CopyIov(ssglAddr, iov, cur, offset, left);
        cur', offset' := CopyIov(0, iov, cur', offset', n - left);
        assert all[left..][..n - left] == all[..n][left..] && all[..left] == all[..n][..left];
        assert all[left..][n - left..] == all[n..];
      }
    }

    /** The `n` bytes just stored behind the cursor, as the adapter sees them. */
    method ReadRing(n: nat, ghost data: seq<byte>, ghost was: seq<byte>) returns (r: seq<byte>)
      requires ssglAddr < sbuf.Length && |data| == n <= sbuf.Length == |was|
      requires sbuf[..] == RingPut(was, ssglAddr, data)
      ensures r == data
    {
      var left := sbuf.Length - ssglAddr;
      if n <= left {
        r := sbuf[ssglAddr..ssglAddr + n];
      } else {
        r := sbuf[ssglAddr..] + sbuf[..n - left];
      }
    }

    /** One iteration of rsendv's loop: the next `n` bytes are gathered into the
        ring and go from there, or inline when they are few. */
    method SendChunkv(iov: seq<seq<byte>>, cur: nat, offset: nat, n: nat) returns (cur': nat, offset': nat)
      requires Laid() && n <= MAX_TRANSFER && n <= cfg.sbufSize
      requires InIov(iov, cur, offset) && n <= |After(iov, cur, offset)|
      modifies this, sbuf
      ensures Laid() && completed == old(completed)
      ensures InIov(iov, cur', offset') && After(iov, cur', offset') == After(iov, cur, offset)[n..]
      ensures (Abs(), posted)
           == var (tx, wrs) := Transfer(cfg, old(Abs()), After(iov, cur, offset)[..n], true); (tx, old(posted) + wrs)
    {
      hide After, RingPut, RingNext, EndpointOps.WriteData, RingGather;
      ghost var data, was := After(iov, cur, offset)[..n], sbuf[..];
      cur', offset' := StoreIov(iov, cur, offset, n);
      var gathered := ReadRing(n, data, was);
      var src := if n <= cfg.sqInline then InlineBytes(gathered) else RingGather(sbuf.Length, ssglAddr, n);
      CursorApart(cfg, Abs(), src, gathered, n, RingNext(cfg.sbufSize, ssglAddr, n));
      WriteData(src, gathered, n);
      MoveCursor(n);
    }
  }

  /** rs_write_data neither uses nor moves the cursor. */
  lemma CursorApart(c: Config, tx: Tx, src: Source, data: seq<byte>, ringUse: nat, at: nat)
    requires TxShape(c, tx) && |data| <= MAX_TRANSFER
    ensures EndpointOps.WriteData(c, tx.(ssglAddr := at), src, data, ringUse)
         == var (tx', wrs) := EndpointOps.WriteData(c, tx, src, data, ringUse); (tx'.(ssglAddr := at), wrs)
  {
  }

  lemma SpliceMore(s: seq<byte>, at: nat, all: seq<byte>, done: nat, n: nat)
    requires done + n <= |all| && at + done + n <= |s|
    ensures Splice(Splice(s, at, all[..done]), at + done, all[done..][..n]) == Splice(s, at, all[..done + n])
    ensures all[done..][n..] == all[done + n..]
  {
    SpliceJoin(s, at, all[..done], all[done..][..n]);
    assert all[..done + n] == all[..done] + all[done..][..n];
  }

  // ---- the position in a list of buffers ----

  function Flat(iov: seq<seq<byte>>): seq<byte> {
    if iov == [] then [] else iov[0] + Flat(iov[1..])
  }

  predicate InIov(iov: seq<seq<byte>>, cur: nat, offset: nat) {
    cur <= |iov| && if cur < |iov| then offset <= |iov[cur]| else offset == 0
  }

  /** What lies behind the position (cur, offset). */
  function After(iov: seq<seq<byte>>, cur: nat, offset: nat): seq<byte>
    requires InIov(iov, cur, offset)
  {
    if cur == |iov| then [] else iov[cur][offset..] + Flat(iov[cur + 1..])
  }

  lemma AfterSplit(iov: seq<seq<byte>>, cur: nat, offset: nat)
    requires InIov(iov, cur, offset) && cur < |iov|
    ensures var n := |iov[cur]| - offset; var after := After(iov, cur, offset);
      && n <= |after| && after[..n] == iov[cur][offset..] && after[n..] == After(iov, cur + 1, 0)
  {
    assert cur + 1 < |iov| ==> iov[cur + 1..][1..] == iov[cur + 2..];
  }

  lemma AfterEnd(iov: seq<seq<byte>>, cur: nat, offset: nat)
    requires InIov(iov, cur, offset) && After(iov, cur, offset) != []
    ensures cur < |iov|
  {
  }

  lemma AfterPart(iov: seq<seq<byte>>, cur: nat, offset: nat, n: nat)
    requires InIov(iov, cur, offset) && cur < |iov| && offset + n <= |iov[cur]|
    ensures n <= |After(iov, cur, offset)| && After(iov, cur, offset)[..n] == iov[cur][offset..offset + n]
    ensures After(iov, cur, offset + n) == After(iov, cur, offset)[n..]
  {
  }
}
