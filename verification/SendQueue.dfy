/** The budgets of one endpoint's send queue: queue entries, reserved control
    entries, the copy ring sbuf and the control buffers. `out` is the list of
    requests posted but not yet polled as complete, oldest first. */
module SendQueue {
  import opened Common
  import opened Wire
  import opened EndpointOps

  // ---- sums over the outstanding requests ----

  function Total(f: Wr -> nat, q: seq<Wr>): nat {
    if q == [] then 0 else f(q[0]) + Total(f, q[1..])
  }

  lemma {:induction false} TotalAppend(f: Wr -> nat, p: seq<Wr>, q: seq<Wr>)
    ensures Total(f, p + q) == Total(f, p) + Total(f, q)
  {
    if p == [] {
      assert p + q == q;
    } else {
      TotalAppend(f, p[1..], q);
      assert (p + q)[1..] == p[1..] + q;
    }
  }

  lemma {:induction false} TotalSuffix(f: Wr -> nat, q: seq<Wr>, i: nat)
    requires i <= |q|
    ensures Total(f, q[i..]) <= Total(f, q)
  {
    assert q == q[..i] + q[i..];
    TotalAppend(f, q[..i], q[i..]);
  }

  lemma {:induction false} TotalLe(f: Wr -> nat, g: Wr -> nat, q: seq<Wr>)
    requires forall i :: 0 <= i < |q| ==> f(q[i]) <= g(q[i])
    ensures Total(f, q) <= Total(g, q)
  {
    if q != [] {
      TotalLe(f, g, q[1..]);
    }
  }

  predicate IsCtrl(w: Wr) {
    MsgOp(w.id) == OP_SGL || MsgOp(w.id) == OP_CTRL
  }

  /** Control entries the request holds. */
  function CtrlUse(w: Wr): nat {
    if IsCtrl(w) then 1 else 0
  }

  /** Data entries the request holds. */
  function DataUse(w: Wr): nat {
    1 - CtrlUse(w)
  }

  /** Bytes of sbuf budget the request holds. */
  function Charge(w: Wr): nat {
    if IsCtrl(w) then 0
    else if MsgOp(w.id) == OP_IOMAP_SGL then if w.msgSend then 0 else IOMAP_BYTES
    else MsgData(w.id)
  }

  function RingUse(w: Wr): nat {
    w.intent.ringUse
  }

  lemma {:induction false} EntriesPartition(q: seq<Wr>)
    ensures Total(CtrlUse, q) + Total(DataUse, q) == |q|
  {
    if q != [] {
      EntriesPartition(q[1..]);
    }
  }

  // ---- the invariant ----

  /** Stepping `d` bytes back from `at` on a ring of `size` bytes. */
  function Back(size: nat, at: nat, d: nat): int {
    if at < d then at - d + size else at - d
  }

  ghost predicate Budgets(c: Config, tx: Tx, out: seq<Wr>) {
    && tx.sqeAvail + Total(DataUse, out) == c.sqSize - QP_CTRL_SIZE
    && tx.sqeAvail >= 0
    && U32(tx.ctrlMaxSeqno - tx.ctrlSeqno) + Total(CtrlUse, out) == QP_CTRL_SIZE
    && tx.sbufBytesAvail + Total(Charge, out) == c.sbufSize
    && tx.sbufBytesAvail >= 0
  }

  /** Request i fetches from where the cursor stood when it was posted. */
  ghost predicate Placed(c: Config, tx: Tx, out: seq<Wr>, i: nat)
    requires i < |out| && tx.ssglAddr < c.sbufSize
  {
    var d := Total(RingUse, out[i..]);
    out[i].src.Gather? ==>
      && 1 <= RingUse(out[i]) <= d <= c.sbufSize
      && 0 <= Back(c.sbufSize, tx.ssglAddr, d) < c.sbufSize
      && out[i].src == RingGather(c.sbufSize, Back(c.sbufSize, tx.ssglAddr, d), RingUse(out[i]))
  }

  /** Request i fetches from the control buffer of its own sequence number. */
  ghost predicate Slotted(c: Config, tx: Tx, out: seq<Wr>, i: nat)
    requires i < |out|
  {
    out[i].src.CtrlBuf? ==>
      && IsCtrl(out[i])
      && out[i].src.slot
         == (tx.ctrlSeqno - Total(CtrlUse, out[i + 1..]) + (if c.msgSend then 1 else 0)) % QP_CTRL_SIZE
  }

  /** Request i holds no more ring space than it is charged for, and still finds
      in memory what it was posted to carry. */
  ghost predicate Entry(c: Config, tx: Tx, out: seq<Wr>, i: nat)
    requires i < |out| && tx.ssglAddr < c.sbufSize
  {
    && RingUse(out[i]) <= Charge(out[i])
    && Placed(c, tx, out, i)
    && Slotted(c, tx, out, i)
    && Fetch(tx, out[i].src) == out[i].intent.intended
  }

  ghost predicate QueueInv(c: Config, tx: Tx, out: seq<Wr>) {
    && ValidConfig(c) && TxShape(c, tx)
    && Budgets(c, tx, out)
    && (forall i :: 0 <= i < |out| ==> Entry(c, tx, out, i))
  }

  lemma InitQueue(c: Config, tx: Tx)
    requires ValidConfig(c) && TxShape(c, tx)
    requires tx.ctrlSeqno == 0 && tx.ctrlMaxSeqno == QP_CTRL_SIZE
    requires tx.sqeAvail == c.sqSize - QP_CTRL_SIZE && tx.sbufBytesAvail == c.sbufSize
    ensures QueueInv(c, tx, [])
  {
  }

  // ---- the copy ring ----

  lemma BackNext(size: nat, at: nat, d: nat, x: nat)
    requires at < size && d + x <= size
    ensures Back(size, RingNext(size, at, x), d + x) == Back(size, at, d)
  {
  }

  /** Byte y of the ring lies this far ahead of `at`. */
  function Ahead(size: nat, at: nat, y: nat): int {
    if y >= at then y - at else y + size - at
  }

  lemma RingPutAt(sbuf: seq<byte>, at: nat, data: seq<byte>, y: nat)
    requires at < |sbuf| && |data| <= |sbuf| && y < |sbuf|
    ensures var k := Ahead(|sbuf|, at, y);
            RingPut(sbuf, at, data)[y] == if k < |data| then data[k] else sbuf[y]
  {
  }

  /** Storing at the cursor what fits in the free space leaves alone every region
      that starts within the occupied `d` bytes behind the cursor. */
  lemma RingPutKeeps(tx: Tx, tx': Tx, at: nat, data: seq<byte>, d: nat, n: nat)
    requires at < |tx.sbuf| && d + |data| <= |tx.sbuf| && n <= d
    requires tx'.sbuf == RingPut(tx.sbuf, at, data)
    requires 0 <= Back(|tx.sbuf|, at, d) < |tx.sbuf|
    ensures var src := RingGather(|tx.sbuf|, Back(|tx.sbuf|, at, d), n);
            Fetch(tx', src) == Fetch(tx, src)
  {
    var size := |tx.sbuf|;
    var a := Back(size, at, d);
    var Gather(a', f, s) := RingGather(size, a, n);
    forall y: nat | y < size && (a <= y < a + f || y < s)
      ensures tx'.sbuf[y] == tx.sbuf[y]
    {
      RingPutAt(tx.sbuf, at, data, y);
    }
    assert tx'.sbuf[a..a + f] == tx.sbuf[a..a + f];
    assert tx'.sbuf[..s] == tx.sbuf[..s];
  }

  lemma RingPutReads(tx': Tx, sbuf: seq<byte>, at: nat, data: seq<byte>)
    requires at < |sbuf| && |data| <= |sbuf|
    requires tx'.sbuf == RingPut(sbuf, at, data)
    ensures Fetch(tx', RingGather(|sbuf|, at, |data|)) == Some(Bytes(data))
  {
    var Gather(a, f, s) := RingGather(|sbuf|, at, |data|);
    assert tx'.sbuf[a..a + f] + tx'.sbuf[..s] == data;
  }

  // ---- posting ----

  /** Stepping back over what was already there is unaffected by what is posted behind it. */
  lemma PlacedAfter(c: Config, tx: Tx, out: seq<Wr>, tx': Tx, wrs: seq<Wr>, i: nat)
    requires i < |out| && tx.ssglAddr < c.sbufSize
    requires Placed(c, tx, out, i)
    requires Total(RingUse, out) + Total(RingUse, wrs) <= c.sbufSize
    requires tx'.ssglAddr == RingNext(c.sbufSize, tx.ssglAddr, Total(RingUse, wrs))
    ensures Placed(c, tx', out + wrs, i)
  {
    TotalSuffix(RingUse, out, i);
    var d, x := Total(RingUse, out[i..]), Total(RingUse, wrs);
    BackNext(c.sbufSize, tx.ssglAddr, d, x);
    assert Total(RingUse, (out + wrs)[i..]) == d + x by {
      assert (out + wrs)[i..] == out[i..] + wrs;
      TotalAppend(RingUse, out[i..], wrs);
    }
  }

  lemma SlottedAfter(c: Config, tx: Tx, out: seq<Wr>, tx': Tx, wrs: seq<Wr>, i: nat)
    requires i < |out| && Slotted(c, tx, out, i)
    requires Total(CtrlUse, wrs) <= 2 && tx'.ctrlSeqno == U32(tx.ctrlSeqno + Total(CtrlUse, wrs))
    ensures Slotted(c, tx', out + wrs, i)
  {
    assert (out + wrs)[i + 1..] == out[i + 1..] + wrs;
    TotalAppend(CtrlUse, out[i + 1..], wrs);
  }

  /** The bytes outstanding in the ring never exceed the bytes charged. */
  lemma RingWithinCharge(c: Config, tx: Tx, out: seq<Wr>)
    requires QueueInv(c, tx, out)
    ensures Total(RingUse, out) + tx.sbufBytesAvail <= c.sbufSize
  {
    forall i | 0 <= i < |out|
      ensures RingUse(out[i]) <= Charge(out[i])
    {
      assert Entry(c, tx, out, i);
    }
    TotalLe(RingUse, Charge, out);
  }

  /** The memory a batch leaves behind: `data` staged at the cursor (nothing when
      empty), the control sequence number advanced by the batch. */
  ghost predicate Staged(c: Config, tx: Tx, out: seq<Wr>, tx': Tx, wrs: seq<Wr>, data: seq<byte>) {
    && TxShape(c, tx) && TxShape(c, tx')
    && Total(RingUse, out) + |data| <= c.sbufSize
    && Total(RingUse, wrs) == |data|
    && tx'.sbuf == RingPut(tx.sbuf, tx.ssglAddr, data)
    && tx'.ssglAddr == RingNext(c.sbufSize, tx.ssglAddr, |data|)
    && Total(CtrlUse, wrs) <= 2
    && tx'.ctrlSeqno == U32(tx.ctrlSeqno + Total(CtrlUse, wrs))
  }

  /** A request outstanding before the batch keeps its place and its bytes. */
  lemma OldEntry(c: Config, tx: Tx, out: seq<Wr>, tx': Tx, wrs: seq<Wr>, data: seq<byte>, i: nat)
    requires i < |out| && Staged(c, tx, out, tx', wrs, data)
    requires Entry(c, tx, out, i)
    requires out[i].src.CtrlBuf? ==> Fetch(tx', out[i].src) == Fetch(tx, out[i].src)
    ensures Entry(c, tx', out + wrs, i)
  {
    PlacedAfter(c, tx, out, tx', wrs, i);
    SlottedAfter(c, tx, out, tx', wrs, i);
    if out[i].src.Gather? {
      TotalSuffix(RingUse, out, i);
      RingPutKeeps(tx, tx', tx.ssglAddr, data, Total(RingUse, out[i..]), RingUse(out[i]));
    }
  }

  /** A request of the batch: only the first may fetch from the ring, at the old cursor. */
  ghost predicate FreshEntry(c: Config, tx: Tx, tx': Tx, wrs: seq<Wr>, j: nat)
    requires j < |wrs| && tx.ssglAddr < c.sbufSize
  {
    && RingUse(wrs[j]) <= Charge(wrs[j])
    && !wrs[j].src.CtrlBuf?
    && Fetch(tx', wrs[j].src) == wrs[j].intent.intended
    && (wrs[j].src.Gather? ==>
          && j == 0 && 1 <= RingUse(wrs[0]) == Total(RingUse, wrs)
          && wrs[0].src == RingGather(c.sbufSize, tx.ssglAddr, RingUse(wrs[0])))
  }

  lemma NewEntry(c: Config, tx: Tx, out: seq<Wr>, tx': Tx, wrs: seq<Wr>, data: seq<byte>, j: nat)
    requires j < |wrs| && Staged(c, tx, out, tx', wrs, data)
    requires FreshEntry(c, tx, tx', wrs, j)
    ensures Entry(c, tx', out + wrs, |out| + j)
  {
    if wrs[j].src.Gather? {
      assert (out + wrs)[|out|..] == wrs;
      BackNext(c.sbufSize, tx.ssglAddr, 0, |data|);
    }
  }

  /** Posting a batch within the budgets keeps the invariant. */
  lemma PostKeeps(c: Config, tx: Tx, out: seq<Wr>, tx': Tx, wrs: seq<Wr>, data: seq<byte>)
    requires QueueInv(c, tx, out) && Staged(c, tx, out, tx', wrs, data)
    requires Budgets(c, tx', out + wrs)
    requires tx'.ctrlBuf == tx.ctrlBuf
    requires forall j :: 0 <= j < |wrs| ==> FreshEntry(c, tx, tx', wrs, j)
    ensures QueueInv(c, tx', out + wrs)
  {
    forall i | 0 <= i < |out + wrs|
      ensures Entry(c, tx', out + wrs, i)
    {
      if i < |out| {
        OldEntry(c, tx, out, tx', wrs, data, i);
      } else {
        NewEntry(c, tx, out, tx', wrs, data, i - |out|);
      }
    }
  }

  /** Two requests of a write-and-notify batch and what they add to each budget. */
  lemma PairTotals(f: Wr -> nat, wrs: seq<Wr>)
    requires 1 <= |wrs| <= 2
    ensures Total(f, wrs) == f(wrs[0]) + if |wrs| == 2 then f(wrs[1]) else 0
  {
    assert wrs[1..] == if |wrs| == 2 then [wrs[1]] else [];
    if |wrs| == 2 {
      assert wrs[1..][1..] == [];
    }
  }

  lemma SeqAdvance(a: u32, m: u32, n: nat)
    requires n <= 2 && U32(m - a) >= n
    ensures U32(m - U32(a + n)) == U32(m - a) - n
  {
  }

  /** What a batch adds to each budget. */
  lemma BudgetsAfter(c: Config, tx: Tx, out: seq<Wr>, tx': Tx, wrs: seq<Wr>)
    requires 1 <= |wrs| <= 2 && Budgets(c, tx, out)
    requires tx'.sqeAvail == tx.sqeAvail - Total(DataUse, wrs) >= 0
    requires tx'.sbufBytesAvail == tx.sbufBytesAvail - Total(Charge, wrs) >= 0
    requires Total(CtrlUse, wrs) <= 2 && Total(CtrlUse, out) + Total(CtrlUse, wrs) <= QP_CTRL_SIZE
    requires tx'.ctrlSeqno == U32(tx.ctrlSeqno + Total(CtrlUse, wrs)) && tx'.ctrlMaxSeqno == tx.ctrlMaxSeqno
    ensures Budgets(c, tx', out + wrs)
  {
    TotalAppend(DataUse, out, wrs);
    TotalAppend(CtrlUse, out, wrs);
    TotalAppend(Charge, out, wrs);
    SeqAdvance(tx.ctrlSeqno, tx.ctrlMaxSeqno, Total(CtrlUse, wrs));
  }

  /** The four totals of a batch. */
  lemma BatchTotals(wrs: seq<Wr>)
    requires 1 <= |wrs| <= 2
    ensures var two := |wrs| == 2;
      && Total(CtrlUse, wrs) == CtrlUse(wrs[0]) + (if two then CtrlUse(wrs[1]) else 0)
      && Total(DataUse, wrs) == DataUse(wrs[0]) + (if two then DataUse(wrs[1]) else 0)
      && Total(Charge, wrs) == Charge(wrs[0]) + (if two then Charge(wrs[1]) else 0)
      && Total(RingUse, wrs) == RingUse(wrs[0]) + (if two then RingUse(wrs[1]) else 0)
  {
    PairTotals(CtrlUse, wrs);
    PairTotals(DataUse, wrs);
    PairTotals(Charge, wrs);
    PairTotals(RingUse, wrs);
  }

  /** A batch whose first request carries `data`, inline or staged, and holds the
      batch's whole charge. */
  lemma DataBatchKeeps(c: Config, tx: Tx, out: seq<Wr>, tx': Tx, wrs: seq<Wr>, data: seq<byte>, staged: seq<byte>)
    requires QueueInv(c, tx, out) && TxShape(c, tx') && 1 <= |wrs| <= 2
    requires 1 <= |data| <= tx.sbufBytesAvail && |wrs| <= tx.sqeAvail
    requires staged == [] || staged == data
    requires tx'.sbuf == RingPut(tx.sbuf, tx.ssglAddr, staged)
    requires tx'.ssglAddr == RingNext(c.sbufSize, tx.ssglAddr, |staged|)
    requires tx'.sqeAvail == tx.sqeAvail - |wrs| && tx'.sbufBytesAvail == tx.sbufBytesAvail - |data|
    requires tx'.ctrlBuf == tx.ctrlBuf && tx'.ctrlSeqno == tx.ctrlSeqno && tx'.ctrlMaxSeqno == tx.ctrlMaxSeqno
    requires wrs[0].intent == Intent(Some(Bytes(data)), |staged|)
    requires !IsCtrl(wrs[0]) && Charge(wrs[0]) == |data|
    requires wrs[0].src == InlineBytes(data)
             || (staged == data && wrs[0].src == RingGather(c.sbufSize, tx.ssglAddr, |data|))
    requires |wrs| == 2 ==> !IsCtrl(wrs[1]) && Charge(wrs[1]) == 0
                            && wrs[1].src == NoSource && wrs[1].intent == Intent(None, 0)
    ensures QueueInv(c, tx', out + wrs)
  {
    BatchTotals(wrs);
    BudgetsAfter(c, tx, out, tx', wrs);
    RingWithinCharge(c, tx, out);
    RingPutReads(tx', tx.sbuf, tx.ssglAddr, staged);
    PostKeeps(c, tx, out, tx', wrs, staged);
  }

  lemma PutNothing(sbuf: seq<byte>, at: nat)
    requires at < |sbuf|
    ensures RingPut(sbuf, at, []) == sbuf
  {
  }

  /** Data sent by rsend or rsendv. */
  lemma TransferKeeps(c: Config, tx: Tx, out: seq<Wr>, data: seq<byte>, vectored: bool)
    requires QueueInv(c, tx, out) && CanSend(c, tx)
    requires 1 <= |data| <= tx.sbufBytesAvail && |data| <= MAX_TRANSFER
    ensures var (tx', wrs) := Transfer(c, tx, data, vectored); QueueInv(c, tx', out + wrs)
  {
    var (tx', wrs) := Transfer(c, tx, data, vectored);
    MsgRoundTrip(OP_DATA, |data|);
    PutNothing(tx.sbuf, tx.ssglAddr);
    DataBatchKeeps(c, tx, out, tx', wrs, data, if !vectored && |data| <= c.sqInline then [] else data);
  }

  lemma IomapKeeps(c: Config, tx: Tx, out: seq<Wr>, iom: seq<byte>, index: nat)
    requires QueueInv(c, tx, out) && CanSend(c, tx)
    requires |iom| == IOMAP_BYTES && index < 0x1_0000
    ensures c.sbufSize >= IOMAP_BYTES
    ensures var (tx', wrs) := SendIomap(c, tx, iom, index); QueueInv(c, tx', out + wrs)
  {
    var (tx', wrs) := SendIomap(c, tx, iom, index);
    MsgRoundTrip(OP_IOMAP_SGL, index);
    PutNothing(tx.sbuf, tx.ssglAddr);
    DataBatchKeeps(c, tx, out, tx', wrs, iom, if c.sqInline >= IOMAP_BYTES then [] else iom);
  }

  lemma DirectKeeps(c: Config, tx: Tx, out: seq<Wr>, data: seq<byte>)
    requires QueueInv(c, tx, out) && CanSend(c, tx)
    requires 1 <= |data| <= tx.sbufBytesAvail && |data| <= MAX_TRANSFER
    ensures var (tx', wrs) := SendDirect(c, tx, data); QueueInv(c, tx', out + wrs)
  {
    var (tx', wrs) := SendDirect(c, tx, data);
    MsgRoundTrip(OP_WRITE, |data|);
    PutNothing(tx.sbuf, tx.ssglAddr);
    DataBatchKeeps(c, tx, out, tx', wrs, data, if |data| <= c.sqInline then [] else data);
  }

  /** rs_ctrl_avail and rs_2ctrl_avail count the free control entries, across the
      wrap of both 32-bit counters. */
  lemma CtrlTests(c: Config, tx: Tx, out: seq<Wr>)
    requires Budgets(c, tx, out)
    ensures CtrlAvail(tx) <==> Total(CtrlUse, out) <= QP_CTRL_SIZE - 1
    ensures CtrlAvail2(tx) <==> Total(CtrlUse, out) <= QP_CTRL_SIZE - 2
  {
  }

  /** A batch of control requests that stages nothing in the ring. */
  lemma CtrlBatchStaged(c: Config, tx: Tx, out: seq<Wr>, tx': Tx, wrs: seq<Wr>)
    requires QueueInv(c, tx, out) && TxShape(c, tx') && 1 <= |wrs| <= 2
    requires Total(CtrlUse, out) + |wrs| <= QP_CTRL_SIZE
    requires forall j :: 0 <= j < |wrs| ==> IsCtrl(wrs[j]) && RingUse(wrs[j]) == 0
    requires tx' == tx.(ctrlSeqno := U32(tx.ctrlSeqno + |wrs|), ctrlBuf := tx'.ctrlBuf)
    ensures Staged(c, tx, out, tx', wrs, []) && Budgets(c, tx', out + wrs)
    ensures Total(RingUse, wrs) == 0 && Total(CtrlUse, wrs) == |wrs|
  {
    BatchTotals(wrs);
    BudgetsAfter(c, tx, out, tx', wrs);
    RingWithinCharge(c, tx, out);
    PutNothing(tx.sbuf, tx.ssglAddr);
  }

  /** Control requests that carry nothing, or carry a grant inline. */
  lemma CtrlBatchKeeps(c: Config, tx: Tx, out: seq<Wr>, wrs: seq<Wr>)
    requires QueueInv(c, tx, out) && 1 <= |wrs| <= 2
    requires Total(CtrlUse, out) + |wrs| <= QP_CTRL_SIZE
    requires forall j :: 0 <= j < |wrs| ==>
      && IsCtrl(wrs[j]) && RingUse(wrs[j]) == 0 && !wrs[j].src.Gather? && !wrs[j].src.CtrlBuf?
      && wrs[j].intent.intended == Fetch(tx, wrs[j].src)
    ensures QueueInv(c, tx.(ctrlSeqno := U32(tx.ctrlSeqno + |wrs|)), out + wrs)
  {
    var tx' := tx.(ctrlSeqno := U32(tx.ctrlSeqno + |wrs|));
    CtrlBatchStaged(c, tx, out, tx', wrs);
    PostKeeps(c, tx, out, tx', wrs, []);
  }

  lemma CtrlKeeps(e: Endpoint, out: seq<Wr>, ctrl: nat)
    requires QueueInv(e.cfg, e.tx, out) && CtrlAvail(e.tx) && ctrl <= CTRL_SHUTDOWN
    ensures var (e', wrs) := SendCtrl(e, ctrl); QueueInv(e.cfg, e'.tx, out + wrs)
  {
    CtrlTests(e.cfg, e.tx, out);
    MsgRoundTrip(OP_CTRL, ctrl);
    CtrlBatchKeeps(e.cfg, e.tx, out, SendCtrl(e, ctrl).1);
  }

  lemma KeepaliveKeeps(e: Endpoint, out: seq<Wr>)
    requires QueueInv(e.cfg, e.tx, out) && CtrlAvail(e.tx)
    ensures var (e', wrs) := SendKeepalive(e); QueueInv(e.cfg, e'.tx, out + wrs)
  {
    CtrlTests(e.cfg, e.tx, out);
    MsgRoundTrip(OP_CTRL, CTRL_KEEPALIVE);
    CtrlBatchKeeps(e.cfg, e.tx, out, SendKeepalive(e).1);
  }

  /** The slot the next grant is staged in holds no grant still in flight. */
  lemma SlotIsFree(c: Config, tx: Tx, out: seq<Wr>, i: nat)
    requires i < |out| && out[i].src.CtrlBuf? && Slotted(c, tx, out, i)
    requires Total(CtrlUse, out) + SqeUse(c) <= QP_CTRL_SIZE
    ensures out[i].src.slot != U32(tx.ctrlSeqno + SqeUse(c)) % QP_CTRL_SIZE
  {
    assert out[i..] == [out[i]] + out[i + 1..];
    TotalSuffix(CtrlUse, out, i);
  }

  lemma GrantEntry(c: Config, tx': Tx, out: seq<Wr>, wrs: seq<Wr>)
    requires |wrs| == SqeUse(c) && tx'.ssglAddr < c.sbufSize
    requires wrs[0].src == CtrlBuf(tx'.ctrlSeqno % QP_CTRL_SIZE) && IsCtrl(wrs[0]) && RingUse(wrs[0]) == 0
    requires |wrs| == 2 ==> IsCtrl(wrs[1])
    requires Fetch(tx', wrs[0].src) == wrs[0].intent.intended
    ensures Entry(c, tx', out + wrs, |out|)
  {
    assert (out + wrs)[|out| + 1..] == if |wrs| == 2 then [wrs[1]] else [];
  }

  /** A grant staged in the control buffer of its sequence number. */
  lemma GrantKeeps(c: Config, tx: Tx, out: seq<Wr>, tx': Tx, wrs: seq<Wr>, sge: Sge)
    requires QueueInv(c, tx, out) && Total(CtrlUse, out) + SqeUse(c) <= QP_CTRL_SIZE
    requires var slot := U32(tx.ctrlSeqno + SqeUse(c)) % QP_CTRL_SIZE;
      && |tx.ctrlBuf| == QP_CTRL_SIZE
      && tx' == tx.(ctrlSeqno := U32(tx.ctrlSeqno + SqeUse(c)), ctrlBuf := tx.ctrlBuf[slot := sge])
      && |wrs| == SqeUse(c) && wrs[0].src == CtrlBuf(slot) && wrs[0].intent == Intent(Some(SgeVal(sge)), 0)
    requires |wrs| == 2 ==> wrs[1].src == NoSource && wrs[1].intent == Intent(None, 0)
    requires forall i :: 0 <= i < |wrs| ==> IsCtrl(wrs[i])
    ensures QueueInv(c, tx', out + wrs)
  {
    CtrlBatchStaged(c, tx, out, tx', wrs);
    forall i | 0 <= i < |out + wrs|
      ensures Entry(c, tx', out + wrs, i)
    {
      if i < |out| {
        assert Entry(c, tx, out, i);
        if out[i].src.CtrlBuf? {
          SlotIsFree(c, tx, out, i);
        }
        OldEntry(c, tx, out, tx', wrs, [], i);
      } else if i == |out| {
        GrantEntry(c, tx', out, wrs);
      } else {
        NewEntry(c, tx, out, tx', wrs, [], 1);
      }
    }
  }

  /** rs_send_credits, with or without a buffer grant. */
  lemma CreditsKeep(e: Endpoint, out: seq<Wr>)
    requires Shape(e) && QueueInv(e.cfg, e.tx, out) && GiveCredits(e)
    ensures var (e', wrs) := SendCredits(e); QueueInv(e.cfg, e'.tx, out + wrs)
  {
    hide Entry, Placed, Slotted, Staged;
    var (e', wrs) := SendCredits(e);
    CtrlTests(e.cfg, e.tx, out);
    MsgRoundTrip(OP_SGL, e.rx.rseqNo + e.cfg.rqSize);
    MsgRoundTrip(OP_SGL, 0);
    if e.rx.rbufBytesAvail < e.cfg.Half() || e.cfg.sqInline >= SGE_BYTES {
      CtrlBatchKeeps(e.cfg, e.tx, out, wrs);
    } else {
      GrantKeeps(e.cfg, e.tx, out, e'.tx, wrs, Sge(e.rx.rbufFreeOffset, e.cfg.Half()));
    }
  }

  // ---- completing ----

  lemma CompletionBudgets(e: Endpoint, out: seq<Wr>)
    requires Budgets(e.cfg, e.tx, out) && out != []
    ensures Budgets(e.cfg, PollSend(e, out[0].id, out[0].msgSend).tx, out[1..])
  {
    assert Total(CtrlUse, out) == CtrlUse(out[0]) + Total(CtrlUse, out[1..]);
    assert Total(DataUse, out) == DataUse(out[0]) + Total(DataUse, out[1..]);
    assert Total(Charge, out) == Charge(out[0]) + Total(Charge, out[1..]);
  }

  lemma CompletionEntry(c: Config, tx: Tx, tx': Tx, out: seq<Wr>, i: nat)
    requires i + 1 < |out| && tx.ssglAddr < c.sbufSize && Entry(c, tx, out, i + 1)
    requires tx' == tx.(ctrlMaxSeqno := tx'.ctrlMaxSeqno, sqeAvail := tx'.sqeAvail,
                        sbufBytesAvail := tx'.sbufBytesAvail)
    ensures Entry(c, tx', out[1..], i)
  {
    assert out[1..][i..] == out[i + 1..] && out[1..][i + 1..] == out[i + 2..];
  }

  /** Polling the oldest completion returns exactly what its request held. */
  lemma CompletionKeeps(e: Endpoint, out: seq<Wr>)
    requires QueueInv(e.cfg, e.tx, out) && out != []
    ensures QueueInv(e.cfg, PollSend(e, out[0].id, out[0].msgSend).tx, out[1..])
  {
    var e' := PollSend(e, out[0].id, out[0].msgSend);
    CompletionBudgets(e, out);
    forall i | 0 <= i < |out[1..]|
      ensures Entry(e.cfg, e'.tx, out[1..], i)
    {
      CompletionEntry(e.cfg, e.tx, e'.tx, out, i);
    }
  }

  // ---- what the invariant gives ----

  /** Data and control entries together fit the queue, and rs_conn_all_sends_done
      recognises exactly the empty queue while connected. */
  lemma QueueFacts(e: Endpoint, out: seq<Wr>)
    requires QueueInv(e.cfg, e.tx, out)
    ensures |out| <= e.cfg.sqSize
    ensures e.st.connected ==> (AllSendsDone(e) <==> out == [])
  {
    EntriesPartition(out);
  }
}
