/** One stream rsocket as a value, and each of its operations as a function from
    the state before to the state after (and the work requests it posts). */
module EndpointOps {
  import opened Common
  import opened Wire

  /** Sizes fixed when the endpoint is created. `msgSend` is RS_OPT_MSG_SEND. */
  datatype Config = Config(sqSize: nat, rqSize: nat, sbufSize: nat, rbufSize: nat, sqInline: nat, msgSend: bool) {
    function Half(): nat { rbufSize / 2 }
  }

  /** The sizes every run below is proved for. */
  ghost predicate ValidConfig(c: Config) {
    && QP_CTRL_SIZE <= c.sqSize
    && 1 <= c.rqSize <= QP_MAX_SIZE
    && 1 <= c.sbufSize
    && 2 <= c.rbufSize && c.rbufSize % 2 == 0
  }

  /** The sending half: credits, the peer's granted buffers, the send queue
      budgets and the copy ring sbuf with its cursor ssgl[0].addr. */
  datatype Tx = Tx(
    ctrlSeqno: u32, ctrlMaxSeqno: u32, sqeAvail: int,
    sseqNo: u16, sseqComp: u16,
    targetSgl: seq<Sge>, targetSge: nat,
    sbufBytesAvail: int, sbuf: seq<byte>, ssglAddr: nat, ctrlBuf: seq<Sge>)

  datatype Rmsg = Rmsg(op: nat, data: nat)

  /** The receiving half: the buffer, what of it is granted, and the ring of
      received but unread messages. */
  datatype Rx = Rx(
    rseqNo: u16, rseqComp: u16, remoteSge: nat,
    rbufBytesAvail: int, rbufFreeOffset: nat, rbufOffset: nat, rbuf: seq<byte>,
    rmsg: seq<Rmsg>, rmsgHead: nat, rmsgTail: nat)

  datatype SockState = SockState(connected: bool, readable: bool, writable: bool, disconnected: bool)

  const CONNECT_RDWR := SockState(true, true, true, false)
  const DISCONNECTED := SockState(false, false, false, true)

  datatype Endpoint = Endpoint(cfg: Config, tx: Tx, rx: Rx, st: SockState)

  ghost predicate TxShape(c: Config, tx: Tx) {
    && |tx.targetSgl| == SGL_SIZE && tx.targetSge < SGL_SIZE
    && |tx.sbuf| == c.sbufSize && tx.ssglAddr < c.sbufSize
    && |tx.ctrlBuf| == QP_CTRL_SIZE
  }

  ghost predicate RxShape(c: Config, rx: Rx) {
    && |rx.rbuf| == c.rbufSize && rx.rbufOffset <= c.rbufSize
    && |rx.rmsg| == c.rqSize + 1 && rx.rmsgHead <= c.rqSize && rx.rmsgTail <= c.rqSize
    && rx.remoteSge < SGL_SIZE
  }

  ghost predicate Shape(e: Endpoint) {
    ValidConfig(e.cfg) && TxShape(e.cfg, e.tx) && RxShape(e.cfg, e.rx)
  }

  // ---- connection set-up ----

  /** What rs_format_conn_data tells the peer. */
  datatype ConnData = ConnData(credits: u16, dataBuf: Sge)

  function Zeros(n: nat): (z: seq<byte>)
    ensures |z| == n
  {
    seq(n, i => 0)
  }

  /** rs_alloc and rs_init_bufs */
  function InitBufs(c: Config): Endpoint {
    Endpoint(
      c,
      Tx(0, QP_CTRL_SIZE, c.sqSize - QP_CTRL_SIZE, 0, 0, [Sge(0, 0), Sge(0, 0)], 0,
         c.sbufSize, Zeros(c.sbufSize), 0, [Sge(0, 0), Sge(0, 0), Sge(0, 0), Sge(0, 0)]),
      Rx(0, U16(c.rqSize / 2), 0, c.Half(), c.Half(), 0, Zeros(c.rbufSize),
         seq(c.rqSize + 1, i => Rmsg(0, 0)), 0, 0),
      CONNECT_RDWR)
  }

  /** rs_format_conn_data */
  function FormatConn(e: Endpoint): ConnData {
    ConnData(U16(e.cfg.rqSize), Sge(0, e.cfg.Half()))
  }

  /** rs_save_conn_data */
  function SaveConn(e: Endpoint, conn: ConnData): Endpoint
    requires |e.tx.targetSgl| == SGL_SIZE
  {
    e.(tx := e.tx.(targetSgl := e.tx.targetSgl[0 := conn.dataBuf], sseqComp := conn.credits),
       rx := e.rx.(remoteSge := 1))
  }

  // ---- sending ----

  /** rs_can_send */
  predicate CanSend(c: Config, tx: Tx)
    requires |tx.targetSgl| == SGL_SIZE && tx.targetSge < SGL_SIZE
  {
    && (if c.msgSend then tx.sqeAvail >= 2 else tx.sqeAvail != 0)
    && tx.sbufBytesAvail >= SNDLOWAT
    && tx.sseqNo != tx.sseqComp
    && tx.targetSgl[tx.targetSge].length != 0
  }

  /** The size of the next transfer of rsend and the size to try after it. */
  function XferSize(tx: Tx, olen: nat, left: nat): (r: (int, nat))
    requires |tx.targetSgl| == SGL_SIZE && tx.targetSge < SGL_SIZE
  {
    var (want, olen') :=
      if olen < left then (olen, if olen < MAX_TRANSFER then 2 * olen else olen) else (left, olen);
    var x := if want > tx.sbufBytesAvail then tx.sbufBytesAvail else want;
    var length := tx.targetSgl[tx.targetSge].length;
    (if x > length then length else x, olen')
  }

  function SqeUse(c: Config): nat {
    if c.msgSend then 2 else 1
  }

  /** rs_write_data */
  function WriteData(c: Config, tx: Tx, src: Source, intended: seq<byte>, ringUse: nat): (r: (Tx, seq<Wr>))
    requires |tx.targetSgl| == SGL_SIZE && tx.targetSge < SGL_SIZE
    requires |intended| <= MAX_TRANSFER
  {
    var t := tx.targetSgl[tx.targetSge];
    var t' := Sge(t.addr + |intended|, t.length - |intended|);
    var next := if t'.length != 0 then tx.targetSge
                else if tx.targetSge + 1 == SGL_SIZE then 0 else tx.targetSge + 1;
    (tx.(sseqNo := U16(tx.sseqNo + 1),
         sqeAvail := tx.sqeAvail - SqeUse(c),
         sbufBytesAvail := tx.sbufBytesAvail - |intended|,
         targetSgl := tx.targetSgl[tx.targetSge := t'],
         targetSge := next),
     PostWriteMsg(c.msgSend, src, PeerRbuf(t.addr), MsgSet(OP_DATA, |intended|),
                  Intent(Some(Bytes(intended)), ringUse)))
  }

  /** Copying `data` into the ring at `at`, wrapping at the end. */
  function RingPut(sbuf: seq<byte>, at: nat, data: seq<byte>): (r: seq<byte>)
    requires at < |sbuf| && |data| <= |sbuf|
    ensures |r| == |sbuf|
  {
    var left := |sbuf| - at;
    if |data| <= left then sbuf[..at] + data + sbuf[at + |data|..]
    else data[left..] + sbuf[|data| - left..at] + data[..left]
  }

  function RingNext(size: nat, at: nat, n: nat): (r: nat)
    requires at < size && n <= size
    ensures r < size
  {
    if n < size - at then at + n else n - (size - at)
  }

  function RingGather(size: nat, at: nat, n: nat): Source
    requires at < size
  {
    if n <= size - at then Gather(at, n, 0) else Gather(at, size - at, n - (size - at))
  }

  /** Staging `data` in the ring: the buffer with the bytes in place, the source
      that fetches them and the cursor behind them. */
  function Stage(c: Config, tx: Tx, data: seq<byte>, inl: bool): (r: (Tx, Source))
    requires TxShape(c, tx) && |data| <= c.sbufSize
  {
    (tx.(sbuf := RingPut(tx.sbuf, tx.ssglAddr, data), ssglAddr := RingNext(c.sbufSize, tx.ssglAddr, |data|)),
     if inl then InlineBytes(data) else RingGather(c.sbufSize, tx.ssglAddr, |data|))
  }

  /** One iteration of rsend (or, `vectored`, of rsendv) sending `data`. rsend
      posts small transfers inline and leaves the ring alone; rsendv gathers into
      the ring first and then posts small transfers inline. */
  function Transfer(c: Config, tx: Tx, data: seq<byte>, vectored: bool): (r: (Tx, seq<Wr>))
    requires TxShape(c, tx) && |data| <= c.sbufSize && |data| <= MAX_TRANSFER
  {
    if !vectored && |data| <= c.sqInline then
      WriteData(c, tx, InlineBytes(data), data, 0)
    else
      var (tx1, src) := Stage(c, tx, data, |data| <= c.sqInline);
      WriteData(c, tx1, src, data, |data|)
  }

  /** One iteration of rs_send_iomaps; `iom` is the 24-byte mapping, `index` its slot. */
  function SendIomap(c: Config, tx: Tx, iom: seq<byte>, index: nat): (r: (Tx, seq<Wr>))
    requires TxShape(c, tx) && |iom| == IOMAP_BYTES <= c.sbufSize && index < 0x1_0000
  {
    var (tx1, src) := if c.sqInline >= IOMAP_BYTES then (tx, InlineBytes(iom)) else Stage(c, tx, iom, false);
    (tx1.(sseqNo := U16(tx.sseqNo + 1),
          sqeAvail := tx.sqeAvail - SqeUse(c),
          sbufBytesAvail := tx.sbufBytesAvail - IOMAP_BYTES),
     PostWriteMsg(c.msgSend, src, PeerIomap(index), MsgSet(OP_IOMAP_SGL, index),
                  Intent(Some(Bytes(iom)), if c.sqInline >= IOMAP_BYTES then 0 else IOMAP_BYTES)))
  }

  /** One iteration of riowrite: a direct write without notification. */
  function SendDirect(c: Config, tx: Tx, data: seq<byte>): (r: (Tx, seq<Wr>))
    requires TxShape(c, tx) && |data| <= c.sbufSize && |data| <= MAX_TRANSFER
  {
    var (tx1, src) := if |data| <= c.sqInline then (tx, InlineBytes(data)) else Stage(c, tx, data, false);
    (tx1.(sqeAvail := tx.sqeAvail - 1, sbufBytesAvail := tx.sbufBytesAvail - |data|),
     [PostWrite(src, PeerMapped, MsgSet(OP_WRITE, |data|),
                Intent(Some(Bytes(data)), if |data| <= c.sqInline then 0 else |data|))])
  }

  // ---- control messages ----

  /** rs_ctrl_avail */
  predicate CtrlAvail(tx: Tx) {
    tx.ctrlSeqno != tx.ctrlMaxSeqno
  }

  /** rs_2ctrl_avail */
  predicate CtrlAvail2(tx: Tx) {
    S32(U32(U32(tx.ctrlSeqno + 1) - tx.ctrlMaxSeqno)) < 0
  }

  /** The signed 16-bit comparison of rseq_no with rseq_comp. */
  predicate CreditsDue(rx: Rx) {
    S16(U16(S16(rx.rseqNo) - S16(rx.rseqComp))) >= 0
  }

  /** rs_give_credits */
  predicate GiveCredits(e: Endpoint) {
    && (e.rx.rbufBytesAvail >= e.cfg.Half() || CreditsDue(e.rx))
    && (if e.cfg.msgSend then CtrlAvail2(e.tx) else CtrlAvail(e.tx))
    && e.st.connected
  }

  /** What rs_send_credits needs: its control buffers, and a 16-bit rq_size. */
  predicate CanGive(e: Endpoint) {
    |e.tx.ctrlBuf| == QP_CTRL_SIZE && e.cfg.rqSize < 0x1_0000
  }

  /** rs_send_credits */
  function SendCredits(e: Endpoint): (r: (Endpoint, seq<Wr>))
    requires CanGive(e)
  {
    var half := e.cfg.Half();
    var seq1 := U32(e.tx.ctrlSeqno + 1);
    var rx1 := e.rx.(rseqComp := U16(e.rx.rseqNo + e.cfg.rqSize / 2));
    var msg := MsgSet(OP_SGL, e.rx.rseqNo + e.cfg.rqSize);
    if e.rx.rbufBytesAvail >= half then
      var seq2 := if e.cfg.msgSend then U32(seq1 + 1) else seq1;
      var sge := Sge(e.rx.rbufFreeOffset, half);
      var slot := seq2 % QP_CTRL_SIZE;
      var inl := e.cfg.sqInline >= SGE_BYTES;
      var offset := e.rx.rbufFreeOffset + half;
      (e.(tx := e.tx.(ctrlSeqno := seq2,
                      ctrlBuf := if inl then e.tx.ctrlBuf else e.tx.ctrlBuf[slot := sge]),
          rx := rx1.(rbufBytesAvail := e.rx.rbufBytesAvail - half,
                     rbufFreeOffset := if offset >= e.cfg.rbufSize then 0 else offset,
                     remoteSge := if e.rx.remoteSge + 1 == SGL_SIZE then 0 else e.rx.remoteSge + 1)),
       PostWriteMsg(e.cfg.msgSend, if inl then InlineSge(sge) else CtrlBuf(slot), PeerSgl(e.rx.remoteSge),
                    msg, Intent(Some(SgeVal(sge)), 0)))
    else
      (e.(tx := e.tx.(ctrlSeqno := seq1), rx := rx1), [PostMsg(msg)])
  }

  /** rs_update_credits */
  function UpdateCredits(e: Endpoint): (r: (Endpoint, seq<Wr>))
    requires CanGive(e)
  {
    if GiveCredits(e) then SendCredits(e) else (e, [])
  }

  /** The control post of rshutdown */
  function SendCtrl(e: Endpoint, ctrl: nat): (r: (Endpoint, seq<Wr>))
    requires ctrl <= CTRL_SHUTDOWN
  {
    (e.(tx := e.tx.(ctrlSeqno := U32(e.tx.ctrlSeqno + 1))), [PostMsg(MsgSet(OP_CTRL, ctrl))])
  }

  /** tcp_svc_send_keepalive: a zero-byte write that notifies nobody */
  function SendKeepalive(e: Endpoint): (r: (Endpoint, seq<Wr>)) {
    (e.(tx := e.tx.(ctrlSeqno := U32(e.tx.ctrlSeqno + 1))),
     [PostWrite(NoSource, NoTarget, MsgSet(OP_CTRL, CTRL_KEEPALIVE), Intent(None, 0))])
  }

  // ---- polling the completion queue ----

  /** rs_poll_cq on a receive completion carrying `msg` */
  function PollMsg(e: Endpoint, msg: nat): (r: Endpoint)
    requires RxShape(e.cfg, e.rx)
    ensures RxShape(r.cfg, r.rx) && (Shape(e) ==> Shape(r))
  {
    var op, data := MsgOp(msg), MsgData(msg);
    if op == OP_SGL then
      e.(tx := e.tx.(sseqComp := U16(data)))
    else if op == OP_IOMAP_SGL || op == OP_WRITE then
      e
    else if op == OP_CTRL then
      if data == CTRL_DISCONNECT then e.(st := DISCONNECTED)
      else if data == CTRL_SHUTDOWN then
        if e.st.writable then e.(st := e.st.(readable := false)) else e.(st := DISCONNECTED)
      else e
    else
      e.(rx := e.rx.(rmsg := e.rx.rmsg[e.rx.rmsgTail := Rmsg(op, data)],
                     rmsgTail := if e.rx.rmsgTail + 1 == e.cfg.rqSize + 1 then 0 else e.rx.rmsgTail + 1))
  }

  /** rs_poll_cq on the completion of a send request */
  function PollSend(e: Endpoint, id: nat, msgSend: bool): (r: Endpoint) {
    var op := MsgOp(id);
    if op == OP_SGL then
      e.(tx := e.tx.(ctrlMaxSeqno := U32(e.tx.ctrlMaxSeqno + 1)))
    else if op == OP_CTRL then
      e.(tx := e.tx.(ctrlMaxSeqno := U32(e.tx.ctrlMaxSeqno + 1)),
         st := if MsgData(id) == CTRL_DISCONNECT then DISCONNECTED else e.st)
    else if op == OP_IOMAP_SGL then
      e.(tx := e.tx.(sqeAvail := e.tx.sqeAvail + 1,
                     sbufBytesAvail := e.tx.sbufBytesAvail + if msgSend then 0 else IOMAP_BYTES))
    else
      e.(tx := e.tx.(sqeAvail := e.tx.sqeAvail + 1, sbufBytesAvail := e.tx.sbufBytesAvail + MsgData(id)))
  }

  /** rs_conn_all_sends_done */
  predicate AllSendsDone(e: Endpoint) {
    S32(U32(S32(e.tx.ctrlMaxSeqno) - S32(e.tx.ctrlSeqno))) + e.tx.sqeAvail == e.cfg.sqSize || !e.st.connected
  }

  // ---- receiving ----

  /** rs_have_rdata */
  predicate HaveRdata(rx: Rx) {
    rx.rmsgHead != rx.rmsgTail
  }

  /** What the message at the head leaves for one pass of rrecv's copy loop: it
      fits the buffer. */
  ghost predicate HeadFits(c: Config, rx: Rx) {
    RxShape(c, rx) && rx.rmsg[rx.rmsgHead].data <= c.rbufSize
  }

  /** Taking up to `left` bytes off the message at the head, and how many. */
  function TakeHead(c: Config, rx: Rx, left: nat): (r: (Rx, nat))
    requires HeadFits(c, rx)
  {
    var m := rx.rmsg[rx.rmsgHead];
    if left < m.data then
      (rx.(rmsg := rx.rmsg[rx.rmsgHead := Rmsg(m.op, m.data - left)]), left)
    else
      (rx.(rseqNo := U16(rx.rseqNo + 1),
           rmsgHead := if rx.rmsgHead + 1 == c.rqSize + 1 then 0 else rx.rmsgHead + 1), m.data)
  }

  /** `size` bytes from `offset` on, wrapping at the end of the buffer. */
  function RingBytes(s: seq<byte>, offset: nat, size: nat): (r: seq<byte>)
    requires offset <= |s| && size <= |s|
    ensures |r| == size
  {
    var end := |s| - offset;
    if size > end then s[offset..] + s[..size - end] else s[offset..offset + size]
  }

  function RingStop(cap: nat, offset: nat, size: nat): (r: nat)
    requires offset <= cap && size <= cap
    ensures r <= cap
  {
    var end := cap - offset;
    if size > end then size - end else offset + size
  }

  /** One pass of rrecv's copy loop with room for `left` bytes. */
  function RecvChunk(c: Config, rx: Rx, left: nat): (r: (Rx, seq<byte>))
    requires HeadFits(c, rx)
    ensures RxShape(c, r.0)
    ensures |r.1| <= left
  {
    var (rx1, size) := TakeHead(c, rx, left);
    (rx1.(rbufOffset := RingStop(c.rbufSize, rx.rbufOffset, size), rbufBytesAvail := rx.rbufBytesAvail + size),
     RingBytes(rx.rbuf, rx.rbufOffset, size))
  }

  // ---- the adapter ----

  /** What the adapter reads from the endpoint's memory for a source. */
  function Fetch(tx: Tx, src: Source): Option<Datum> {
    match src
    case NoSource => None
    case InlineBytes(b) => Some(Bytes(b))
    case InlineSge(s) => Some(SgeVal(s))
    case Gather(a, f, s) =>
      if a + f <= |tx.sbuf| && s <= |tx.sbuf| then Some(Bytes(tx.sbuf[a..a + f] + tx.sbuf[..s])) else None
    case CtrlBuf(k) => if k < |tx.ctrlBuf| then Some(SgeVal(tx.ctrlBuf[k])) else None
  }

  /** Writing `b` over `s` from `at` on. */
  function Splice(s: seq<byte>, at: nat, b: seq<byte>): (r: seq<byte>)
    requires at + |b| <= |s|
    ensures |r| == |s|
  {
    s[..at] + b + s[at + |b|..]
  }

  /** What landing a datum does to the peer's memory. A write outside the
      registered buffer changes nothing. */
  function Land(e: Endpoint, dst: Target, d: Option<Datum>): (r: Endpoint) {
    match (dst, d)
    case (PeerRbuf(a), Some(Bytes(b))) =>
      if 0 <= a && a + |b| <= |e.rx.rbuf| then
        e.(rx := e.rx.(rbuf := Splice(e.rx.rbuf, a, b)))
      else e
    case (PeerSgl(k), Some(SgeVal(s))) =>
      if k < |e.tx.targetSgl| then e.(tx := e.tx.(targetSgl := e.tx.targetSgl[k := s])) else e
    case _ => e
  }

  lemma SpliceNone(s: seq<byte>, at: nat)
    requires at <= |s|
    ensures Splice(s, at, []) == s
  {
  }

  /** Two adjacent writes are one. */
  lemma SpliceJoin(s: seq<byte>, at: nat, a: seq<byte>, b: seq<byte>)
    requires at + |a| + |b| <= |s|
    ensures Splice(Splice(s, at, a), at + |a|, b) == Splice(s, at, a + b)
  {
  }

  /** Storing in the ring is one write, or one up to the end and one at the start. */
  lemma RingPutPieces(s: seq<byte>, at: nat, data: seq<byte>)
    requires at < |s| && |data| <= |s|
    ensures var left := |s| - at;
      RingPut(s, at, data) ==
        if |data| <= left then Splice(s, at, data) else Splice(Splice(s, at, data[..left]), 0, data[left..])
  {
  }
}
