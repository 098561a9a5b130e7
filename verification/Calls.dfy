/** Whole socket calls as functions: the completion queue pass, rsend, rsendv and
    rrecv, over one endpoint and its queues. */
module Calls {
  import opened Common
  import opened Wire
  import opened EndpointOps
  import opened SendQueue
  import opened Channel
  import opened Protocol
  import opened ProtocolInv

  /** A mapping that rs_send_iomaps has still to tell the peer about. */
  datatype Iomap = Iomap(bytes: seq<byte>, index: nat)

  /** An endpoint, every request it posted and how many of them completed, its
      receive requests posted, and its iomap_queue. */
  datatype Sock = Sock(ep: Endpoint, posted: seq<Wr>, completed: nat, recvs: int, iomaps: seq<Iomap>) {
    function Out(): seq<Wr>
      requires completed <= |posted|
    {
      posted[completed..]
    }
  }

  /** What can happen to an endpoint between two looks of a call at its state: a
      receive completion, the completion of its oldest outstanding request, a write
      of the peer landing in its memory, or another thread's use of the socket, which
      leaves it as `ep` and posts `wrs`. */
  datatype Item =
    | Receipt(msg: nat)
    | Done
    | Remote(dst: Target, datum: Option<Datum>)
    | Beside(ep: Endpoint, wrs: seq<Wr>)

  predicate Queues(msg: nat) {
    MsgOp(msg) !in {OP_SGL, OP_IOMAP_SGL, OP_WRITE, OP_CTRL}
  }

  /** What the peer keeps to: a message has bytes and fits the buffer, and a grant
      has a length. */
  predicate ItemOk(c: Config, item: Item) {
    match item
    case Receipt(msg) => Queues(msg) ==> 1 <= MsgData(msg) <= c.rbufSize
    case Done => true
    case Remote(PeerSgl(_), Some(SgeVal(sge))) => sge.length >= 0
    case Remote(_, _) => true
    case Beside(_, _) => true
  }

  /** No other thread uses the socket. */
  predicate Alone(items: seq<Item>) {
    forall i :: 0 <= i < |items| ==> !items[i].Beside?
  }

  predicate AllAlone(waits: seq<seq<Item>>) {
    forall i :: 0 <= i < |waits| ==> Alone(waits[i])
  }

  predicate ItemsOk(c: Config, items: seq<Item>) {
    forall i :: 0 <= i < |items| ==> ItemOk(c, items[i])
  }

  predicate Lengths(sgl: seq<Sge>) {
    forall i :: 0 <= i < |sgl| ==> sgl[i].length >= 0
  }

  /** Entries of the message ring from `head` up to `tail`. */
  function Between(c: Config, head: nat, tail: nat): nat
    requires head <= c.rqSize && tail <= c.rqSize
  {
    if tail >= head then tail - head else tail + c.rqSize + 1 - head
  }

  function NextEntry(c: Config, i: nat): nat {
    if i + 1 == c.rqSize + 1 then 0 else i + 1
  }

  /** Every message in the ring has bytes left, and fits the buffer. */
  predicate Live(c: Config, rx: Rx)
    requires RxShape(c, rx)
  {
    forall i :: 0 <= i <= c.rqSize && Between(c, rx.rmsgHead, i) < Between(c, rx.rmsgHead, rx.rmsgTail) ==>
      1 <= rx.rmsg[i].data <= c.rbufSize
  }

  predicate IomapsOk(q: seq<Iomap>) {
    forall i :: 0 <= i < |q| ==> |q[i].bytes| == IOMAP_BYTES && q[i].index < 0x1_0000
  }

  /** What holds even in the middle of a pass over the completion queue. */
  ghost predicate Core(k: Sock) {
    && Shape(k.ep) && k.completed <= |k.posted|
    && QueueInv(k.ep.cfg, k.ep.tx, k.Out())
    && Lengths(k.ep.tx.targetSgl) && Live(k.ep.cfg, k.ep.rx)
    && IomapsOk(k.iomaps)
  }

  /** Between two passes of a connected socket all its receives are posted. */
  ghost predicate SockInv(k: Sock) {
    Core(k) && (k.ep.st.connected ==> k.recvs == k.ep.cfg.rqSize)
  }

  lemma SockShape(k: Sock)
    requires SockInv(k)
    ensures Core(k) && IomapsOk(k.iomaps) && Shape(k.ep) && CanGive(k.ep) && k.completed <= |k.posted|
    ensures TxShape(k.ep.cfg, k.ep.tx) && |k.ep.tx.targetSgl| == SGL_SIZE && k.ep.tx.targetSge < SGL_SIZE
  {
    hide QueueInv;
  }

  // ---- the completion queue ----

  /** rs_update_credits */
  function Update(k: Sock): Sock
    requires CanGive(k.ep)
  {
    var (e, wrs) := UpdateCredits(k.ep);
    k.(ep := e, posted := k.posted + wrs)
  }

  lemma OutAppend(k: Sock, k': Sock, wrs: seq<Wr>)
    requires k.completed <= |k.posted| && k'.posted == k.posted + wrs && k'.completed == k.completed
    ensures k'.Out() == k.Out() + wrs
  {
  }

  lemma UpdateLive(e: Endpoint)
    requires Shape(e) && Live(e.cfg, e.rx)
    ensures Shape(UpdateCredits(e).0) && Live(e.cfg, UpdateCredits(e).0.rx)
  {
  }

  lemma UpdateInv(k: Sock)
    requires SockInv(k)
    ensures SockInv(Update(k)) && Update(k).ep.st == k.ep.st && Update(k).ep.cfg == k.ep.cfg
    ensures CanSend(k.ep.cfg, Update(k).ep.tx) == CanSend(k.ep.cfg, k.ep.tx)
  {
    hide QueueInv, Live;
    UpdateLive(k.ep);
    if GiveCredits(k.ep) {
      CreditsKeep(k.ep, k.Out());
      OutAppend(k, Update(k), SendCredits(k.ep).1);
    } else {
      assert k.posted + [] == k.posted;
    }
  }

  /** Another thread leaves a socket behind. */
  ghost predicate Allowed(k: Sock, ep: Endpoint, wrs: seq<Wr>) {
    && ep.cfg == k.ep.cfg && (ep.st.connected ==> k.ep.st.connected)
    && Core(k.(ep := ep, posted := k.posted + wrs))
  }

  ghost function Apply(k: Sock, item: Item): Sock
    requires Shape(k.ep) && k.completed <= |k.posted|
  {
    match item
    case Receipt(msg) => k.(ep := PollMsg(k.ep, msg), recvs := k.recvs - 1)
    case Done =>
      if k.completed == |k.posted| then k
      else
        var w := k.posted[k.completed];
        k.(ep := PollSend(k.ep, w.id, w.msgSend), completed := k.completed + 1)
    case Remote(dst, datum) => k.(ep := Land(k.ep, dst, datum))
    case Beside(ep, wrs) => if Allowed(k, ep, wrs) then k.(ep := ep, posted := k.posted + wrs) else k
  }

  lemma PollLive(e: Endpoint, msg: nat)
    requires Shape(e) && Live(e.cfg, e.rx) && (Queues(msg) ==> 1 <= MsgData(msg) <= e.cfg.rbufSize)
    ensures Live(e.cfg, PollMsg(e, msg).rx)
  {
  }

  lemma LandLive(e: Endpoint, dst: Target, datum: Option<Datum>)
    requires Shape(e) && Live(e.cfg, e.rx)
    ensures Shape(Land(e, dst, datum)) && Live(e.cfg, Land(e, dst, datum).rx)
  {
  }

  lemma ApplyInv(k: Sock, item: Item)
    requires Core(k) && ItemOk(k.ep.cfg, item)
    ensures var k' := Apply(k, item);
      && Core(k') && k'.ep.cfg == k.ep.cfg && k'.iomaps == k.iomaps
      && (k'.ep.st.connected ==> k.ep.st.connected)
      && k'.recvs + (if item.Receipt? then 1 else 0) == k.recvs
  {
    hide QueueInv, Live;
    match item
    case Receipt(msg) =>
      QueueFrame(k.ep.cfg, k.ep.tx, PollMsg(k.ep, msg).tx, k.Out());
      PollLive(k.ep, msg);
    case Done =>
      if k.completed < |k.posted| {
        CompletionKeeps(k.ep, k.Out());
        assert Apply(k, item).Out() == k.Out()[1..];
      }
    case Remote(dst, datum) =>
      QueueFrame(k.ep.cfg, k.ep.tx, Land(k.ep, dst, datum).tx, k.Out());
      LandLive(k.ep, dst, datum);
    case Beside(_, _) =>
  }

  /** The message ends the pass: the socket is now disconnected. */
  predicate Ends(e: Endpoint, item: Item)
    requires Shape(e)
  {
    item.Receipt? && MsgOp(item.msg) == OP_CTRL && PollMsg(e, item.msg).st == DISCONNECTED
    && (MsgData(item.msg) == CTRL_DISCONNECT || MsgData(item.msg) == CTRL_SHUTDOWN)
  }

  /** The loop of rs_poll_cq: everything there is, unless the peer's message
      disconnects; the state, the receives used up, and whether it was cut short. */
  ghost function Scan(k: Sock, items: seq<Item>): (r: (Sock, nat, bool))
    requires Core(k) && ItemsOk(k.ep.cfg, items)
    ensures Core(r.0) && r.0.ep.cfg == k.ep.cfg && r.0.iomaps == k.iomaps
    ensures r.0.recvs + r.1 == k.recvs && (r.0.ep.st.connected ==> k.ep.st.connected && !r.2)
    decreases |items|
  {
    if items == [] then (k, 0, false)
    else
      ApplyInv(k, items[0]);
      var k1, n := Apply(k, items[0]), if items[0].Receipt? then 1 else 0;
      if Ends(k.ep, items[0]) then (k1, n, true)
      else
        var (k', rcnt, ended) := Scan(k1, items[1..]);
        (k', n + rcnt, ended)
  }

  /** rs_poll_cq: the loop, and then as many receives posted as were used up if the
      socket is still connected. */
  ghost function PollAll(k: Sock, items: seq<Item>): (r: Sock)
    requires SockInv(k) && ItemsOk(k.ep.cfg, items)
    ensures SockInv(r) && r.ep.cfg == k.ep.cfg && r.iomaps == k.iomaps
  {
    var (k1, rcnt, ended) := Scan(k, items);
    if !ended && k1.ep.st.connected then k1.(recvs := k1.recvs + rcnt) else k1
  }

  // ---- where the pass stops ----

  function Receipts(items: seq<Item>): nat {
    if items == [] then 0 else (if items[0].Receipt? then 1 else 0) + Receipts(items[1..])
  }

  /** The i-th thing that happens is the peer's last word: a disconnect, or a
      shutdown when this side has shut its own direction too. */
  ghost predicate LastWord(k: Sock, items: seq<Item>, i: nat)
    requires Core(k) && ItemsOk(k.ep.cfg, items) && i < |items|
  {
    && items[i].Receipt? && MsgOp(items[i].msg) == OP_CTRL
    && (MsgData(items[i].msg) == CTRL_DISCONNECT
        || (MsgData(items[i].msg) == CTRL_SHUTDOWN && !Scan(k, items[..i]).0.ep.st.writable))
  }

  lemma EndsExact(e: Endpoint, item: Item)
    requires Shape(e)
    ensures var last := item.Receipt? && MsgOp(item.msg) == OP_CTRL
        && (MsgData(item.msg) == CTRL_DISCONNECT || (MsgData(item.msg) == CTRL_SHUTDOWN && !e.st.writable));
      Ends(e, item) == last
    ensures Ends(e, item) ==> PollMsg(e, item.msg).st == DISCONNECTED
  {
  }

  /** rs_poll_cq takes everything there is unless the peer's last word is among it,
      and then everything up to the first such word, which disconnects. */
  lemma {:induction false} ScanStops(k: Sock, items: seq<Item>) returns (i: nat)
    requires Core(k) && ItemsOk(k.ep.cfg, items)
    ensures i <= |items| && forall j: nat :: j < i ==> !LastWord(k, items, j)
    ensures var (k', rcnt, ended) := Scan(k, items);
      && (ended <==> i < |items|)
      && (ended ==> LastWord(k, items, i) && k'.ep.st == DISCONNECTED)
      && rcnt == Receipts(if ended then items[..i + 1] else items)
    decreases |items|
  {
    hide QueueInv, Live, Lengths, IomapsOk, ValidConfig, TxShape, RxShape, Apply, PollMsg, ItemOk, Ends;
    i := 0;
    if items != [] {
      ApplyInv(k, items[0]);
      EndsHere(k, items);
      if !Ends(k.ep, items[0]) {
        var k1, rest := Apply(k, items[0]), items[1..];
        var i' := ScanStops(k1, rest);
        i := i' + 1;
        forall j: nat | 0 < j < |items|
          ensures LastWord(k, items, j) <==> LastWord(k1, rest, j - 1)
        {
          assert items[..j][1..] == rest[..j - 1] && items[..j][0] == items[0];
        }
        if i' < |rest| {
          assert items[..i + 1][1..] == rest[..i' + 1];
        }
      } else {
        assert items[..1][1..] == [] && items[..1][0] == items[0];
      }
    }
  }

  lemma EndsHere(k: Sock, items: seq<Item>)
    requires Core(k) && ItemsOk(k.ep.cfg, items) && items != []
    ensures Ends(k.ep, items[0]) <==> LastWord(k, items, 0)
    ensures Ends(k.ep, items[0]) ==> Apply(k, items[0]).ep.st == DISCONNECTED
  {
    EndsExact(k.ep, items[0]);
    assert items[..0] == [];
  }

  // ---- sending ----

  datatype Errno = EWOULDBLOCK | ECONNRESET

  ghost predicate WaitsOk(c: Config, waits: seq<seq<Item>>) {
    forall i :: 0 <= i < |waits| ==> ItemsOk(c, waits[i])
  }

  function Post(k: Sock, data: seq<byte>, vectored: bool): Sock
    requires Shape(k.ep) && |data| <= k.ep.cfg.sbufSize && |data| <= MAX_TRANSFER
  {
    var (tx', wrs) := Transfer(k.ep.cfg, k.ep.tx, data, vectored);
    k.(ep := k.ep.(tx := tx'), posted := k.posted + wrs)
  }

  /** A size that rsend may use for its next transfer. */
  ghost predicate OlenOk(olen: nat) {
    olen in {2048, 4096, 8192, 16384, 32768, 65536}
  }

  /** Once rs_can_send holds, the next transfer has at least one byte and stays
      within the ring, the budget and the target. */
  lemma NextFits(k: Sock, olen: nat, left: nat)
    requires SockInv(k) && CanSend(k.ep.cfg, k.ep.tx) && OlenOk(olen) && left >= 1
    ensures var (n, olen') := XferSize(k.ep.tx, olen, left);
      && 1 <= n <= left && n <= k.ep.tx.sbufBytesAvail <= k.ep.cfg.sbufSize && n <= MAX_TRANSFER
      && n <= k.ep.tx.targetSgl[k.ep.tx.targetSge].length && OlenOk(olen')
  {
  }

  /** It is as long as the first of its limits allows, and the size to try next
      doubles up to RS_MAX_TRANSFER as long as there is more to send. */
  lemma NextIsLongest(tx: Tx, olen: nat, left: nat)
    requires |tx.targetSgl| == SGL_SIZE && tx.targetSge < SGL_SIZE && OlenOk(olen)
    ensures var (n, olen') := XferSize(tx, olen, left); var room := tx.targetSgl[tx.targetSge].length;
      && n <= left && n <= olen && n <= tx.sbufBytesAvail && n <= room
      && n in {left, olen, tx.sbufBytesAvail, room}
      && olen' == if olen < left && olen < MAX_TRANSFER then 2 * olen else olen
  {
  }

  /** So the transfer that rsend chooses is always a possible step of the
      connection, and does what that step does. */
  lemma TransferIsStep(s: System, buf: seq<byte>, olen: nat, vectored: bool)
    requires Inv(s) && CanSend(s.a.ep.cfg, s.a.ep.tx) && OlenOk(olen) && buf != []
    ensures var (n, _) := XferSize(s.a.ep.tx, olen, |buf|);
      && 1 <= n <= |buf| && Enabled(s, Send(buf[..n], vectored))
      && var (tx, wrs) := Transfer(s.a.ep.cfg, s.a.ep.tx, buf[..n], vectored);
      && Step(s, Send(buf[..n], vectored)).a.ep == s.a.ep.(tx := tx)
      && Step(s, Send(buf[..n], vectored)).a.link.inFlight == s.a.link.inFlight + wrs
  {
    hide StreamInv, SentWithin, LimitsGiven, SpaceGiven, RingInv, MemInv, OffsetOk, FwdPipe, ArrPipe, BwdPipe,
         ArrLimits;
  }

  lemma BudgetWithin(k: Sock)
    requires Core(k)
    ensures k.ep.tx.sbufBytesAvail <= k.ep.cfg.sbufSize
  {
  }

  lemma PostInv(k: Sock, data: seq<byte>, vectored: bool)
    requires SockInv(k) && CanSend(k.ep.cfg, k.ep.tx)
    requires 1 <= |data| <= k.ep.tx.sbufBytesAvail && |data| <= MAX_TRANSFER
    requires |data| <= k.ep.tx.targetSgl[k.ep.tx.targetSge].length
    ensures |data| <= k.ep.cfg.sbufSize && SockInv(Post(k, data, vectored))
    ensures Post(k, data, vectored).ep.cfg == k.ep.cfg
  {
    hide QueueInv, Live;
    BudgetWithin(k);
    TransferKeeps(k.ep.cfg, k.ep.tx, k.Out(), data, vectored);
    OutAppend(k, Post(k, data, vectored), Transfer(k.ep.cfg, k.ep.tx, data, vectored).1);
  }

  /** What the loops of rsend and rsendv see at the head of an iteration: the
      state after waiting if they had to, or why they give up. */
  ghost function Ready(k: Sock, items: seq<Item>): (r: (Sock, Option<Errno>))
    requires SockInv(k) && ItemsOk(k.ep.cfg, items)
    ensures SockInv(r.0) && r.0.ep.cfg == k.ep.cfg && r.0.iomaps == k.iomaps
    ensures r.1.None? ==> CanSend(r.0.ep.cfg, r.0.ep.tx)
  {
    if CanSend(k.ep.cfg, k.ep.tx) then (k, None)
    else
      UpdateInv(k);
      var k1 := PollAll(Update(k), items);
      UpdateInv(k1);
      var k2 := Update(k1);
      if !CanSend(k1.ep.cfg, k1.ep.tx) && k1.ep.st.writable then (k2, Some(EWOULDBLOCK))
      else if !k2.ep.st.writable then (k2, Some(ECONNRESET))
      else (k2, None)
  }

  /** One transfer: the state after it, its length and the size to try next. */
  ghost function Advance(k: Sock, buf: seq<byte>, olen: nat, vectored: bool): (r: (Sock, nat, nat))
    requires SockInv(k) && CanSend(k.ep.cfg, k.ep.tx) && OlenOk(olen) && buf != []
    ensures SockInv(r.0) && r.0.ep.cfg == k.ep.cfg && r.0.iomaps == k.iomaps
    ensures 1 <= r.1 <= |buf| && OlenOk(r.2)
  {
    NextFits(k, olen, |buf|);
    var (n, olen') := XferSize(k.ep.tx, olen, |buf|);
    PostInv(k, buf[..n], vectored);
    (Post(k, buf[..n], vectored), n, olen')
  }

  /** What the transfer is. */
  lemma AdvanceIs(k: Sock, buf: seq<byte>, olen: nat, vectored: bool)
    requires SockInv(k) && CanSend(k.ep.cfg, k.ep.tx) && OlenOk(olen) && buf != []
    ensures var (n, olen') := XferSize(k.ep.tx, olen, |buf|);
      && 1 <= n <= |buf| && n <= MAX_TRANSFER && n <= k.ep.cfg.sbufSize && OlenOk(olen') && Shape(k.ep)
      && SockInv(Post(k, buf[..n], vectored)) && Post(k, buf[..n], vectored).ep.cfg == k.ep.cfg
      && Advance(k, buf, olen, vectored) == (Post(k, buf[..n], vectored), n, olen')
  {
    hide QueueInv, Live, Lengths, IomapsOk, Post;
    NextFits(k, olen, |buf|);
    PostInv(k, buf[..XferSize(k.ep.tx, olen, |buf|).0], vectored);
  }

  function First(waits: seq<seq<Item>>): seq<Item> {
    if waits == [] then [] else waits[0]
  }

  function Rest(waits: seq<seq<Item>>): seq<seq<Item>> {
    if waits == [] then [] else waits[1..]
  }

  lemma WaitsRest(c: Config, waits: seq<seq<Item>>)
    requires WaitsOk(c, waits)
    ensures ItemsOk(c, First(waits)) && WaitsOk(c, Rest(waits))
  {
  }

  /** What is left of `waits` after an iteration that starts in state k. */
  ghost function Later(k: Sock, waits: seq<seq<Item>>): seq<seq<Item>>
    requires SockInv(k)
  {
    if CanSend(k.ep.cfg, k.ep.tx) then waits else Rest(waits)
  }

  /** The loop of rsend (of rsendv when `vectored`) with `buf` left to send: the
      final state, the bytes accepted and the error that stopped it. waits[i] is
      what happens while it waits for the i-th time. */
  ghost function SendLoop(k: Sock, buf: seq<byte>, olen: nat, waits: seq<seq<Item>>,
                          vectored: bool): (r: (Sock, nat, Option<Errno>))
    requires SockInv(k) && WaitsOk(k.ep.cfg, waits) && OlenOk(olen)
    ensures SockInv(r.0) && r.1 <= |buf|
    ensures r.2.None? <==> r.1 == |buf|
    decreases |buf|
  {
    if buf == [] then (k, 0, None)
    else
      WaitsSplit(k, waits);
      var (k1, err) := Ready(k, First(waits));
      if err.Some? then (k1, 0, err)
      else
        var (k2, n, olen') := Advance(k1, buf, olen, vectored);
        var (k', sent, err') := SendLoop(k2, buf[n..], olen', Later(k, waits), vectored);
        (k', n + sent, err')
  }

  /** One iomap message: the first of the queue. */
  function PostIomap(k: Sock): Sock
    requires Shape(k.ep) && k.iomaps != [] && IomapsOk(k.iomaps) && IOMAP_BYTES <= k.ep.cfg.sbufSize
  {
    var (tx', wrs) := SendIomap(k.ep.cfg, k.ep.tx, k.iomaps[0].bytes, k.iomaps[0].index);
    k.(ep := k.ep.(tx := tx'), posted := k.posted + wrs, iomaps := k.iomaps[1..])
  }

  lemma PostIomapInv(k: Sock)
    requires SockInv(k) && CanSend(k.ep.cfg, k.ep.tx) && k.iomaps != []
    ensures IOMAP_BYTES <= k.ep.cfg.sbufSize && SockInv(PostIomap(k)) && PostIomap(k).ep.cfg == k.ep.cfg
  {
    IomapKeeps(k.ep.cfg, k.ep.tx, k.Out(), k.iomaps[0].bytes, k.iomaps[0].index);
    OutAppend(k, PostIomap(k), SendIomap(k.ep.cfg, k.ep.tx, k.iomaps[0].bytes, k.iomaps[0].index).1);
  }

  /** rs_send_iomaps: the state, what is left of `waits`, and why it gave up. */
  ghost function IomapLoop(k: Sock, waits: seq<seq<Item>>): (r: (Sock, seq<seq<Item>>, Option<Errno>))
    requires SockInv(k) && WaitsOk(k.ep.cfg, waits)
    ensures SockInv(r.0) && r.0.ep.cfg == k.ep.cfg && WaitsOk(k.ep.cfg, r.1)
    ensures r.2.None? <==> r.0.iomaps == []
    decreases |k.iomaps|
  {
    if k.iomaps == [] then (k, waits, None)
    else
      WaitsSplit(k, waits);
      var (k1, err) := Ready(k, First(waits));
      if err.Some? then (k1, Later(k, waits), err)
      else
        PostIomapInv(k1);
        IomapLoop(PostIomap(k1), Later(k, waits))
  }

  /** The whole of rsend, or of rsendv on its buffers in a row: pending iomap
      messages go first. */
  ghost function SendCall(k: Sock, buf: seq<byte>, waits: seq<seq<Item>>, vectored: bool): (r: (Sock, nat,
                          Option<Errno>))
    requires SockInv(k) && WaitsOk(k.ep.cfg, waits)
    ensures SockInv(r.0) && r.1 <= |buf|
  {
    var (k1, waits', err) := IomapLoop(k, waits);
    if err.Some? then (k1, 0, err) else SendLoop(k1, buf, OLAP_START_SIZE, waits', vectored)
  }

  // ---- what the calls post ----

  /** The stream bytes a request carries. */
  function Carried(w: Wr): seq<byte> {
    if w.dst.PeerRbuf? && w.intent.intended.Some? && w.intent.intended.value.Bytes? then w.intent.intended.value.bytes
    else []
  }

  /** The stream bytes among what was posted. */
  function Payload(wrs: seq<Wr>): seq<byte> {
    if wrs == [] then [] else Carried(wrs[0]) + Payload(wrs[1..])
  }

  lemma {:induction false} PayloadAppend(p: seq<Wr>, q: seq<Wr>)
    ensures Payload(p + q) == Payload(p) + Payload(q)
  {
    hide Carried;
    if p == [] {
      assert p + q == q;
    } else {
      PayloadAppend(p[1..], q);
      assert (p + q)[1..] == p[1..] + q;
      assert Carried(p[0]) + (Payload(p[1..]) + Payload(q)) == Carried(p[0]) + Payload(p[1..]) + Payload(q);
    }
  }

  lemma PairPayload(wrs: seq<Wr>)
    requires 1 <= |wrs| <= 2
    ensures Payload(wrs) == Payload([wrs[0]]) + if |wrs| == 2 then Payload([wrs[1]]) else []
  {
    if |wrs| == 2 {
      assert wrs == [wrs[0]] + [wrs[1]];
      PayloadAppend([wrs[0]], [wrs[1]]);
    } else {
      assert wrs == [wrs[0]];
    }
  }

  lemma PostPayload(k: Sock, data: seq<byte>, vectored: bool)
    requires Shape(k.ep) && |data| <= k.ep.cfg.sbufSize && |data| <= MAX_TRANSFER
    ensures Payload(Post(k, data, vectored).posted) == Payload(k.posted) + data
  {
    var wrs := Transfer(k.ep.cfg, k.ep.tx, data, vectored).1;
    PairPayload(wrs);
    PayloadAppend(k.posted, wrs);
  }

  lemma UpdatePayload(k: Sock)
    requires Shape(k.ep)
    ensures Payload(Update(k).posted) == Payload(k.posted)
  {
    var wrs := UpdateCredits(k.ep).1;
    if wrs == [] {
      assert k.posted + wrs == k.posted;
    } else {
      PairPayload(wrs);
      PayloadAppend(k.posted, wrs);
    }
  }

  lemma AdvancePayload(k: Sock, buf: seq<byte>, olen: nat, vectored: bool)
    requires SockInv(k) && CanSend(k.ep.cfg, k.ep.tx) && OlenOk(olen) && buf != []
    ensures var (k', n, _) := Advance(k, buf, olen, vectored); Payload(k'.posted) == Payload(k.posted) + buf[..n]
  {
    hide QueueInv;
    NextFits(k, olen, |buf|);
    var (n, _) := XferSize(k.ep.tx, olen, |buf|);
    PostPayload(k, buf[..n], vectored);
  }

  lemma WaitsSplit(k: Sock, waits: seq<seq<Item>>)
    requires SockInv(k) && WaitsOk(k.ep.cfg, waits)
    ensures ItemsOk(k.ep.cfg, First(waits)) && WaitsOk(k.ep.cfg, Later(k, waits))
    ensures AllQuiet(waits) ==> Quiet(First(waits)) && AllQuiet(Later(k, waits))
    ensures AllAlone(waits) ==> Alone(First(waits)) && AllAlone(Later(k, waits))
  {
  }

  /** No other thread sends, which rsend's lock sees to. */
  predicate Quiet(items: seq<Item>) {
    forall i :: 0 <= i < |items| && items[i].Beside? ==> Payload(items[i].wrs) == []
  }

  predicate AllQuiet(waits: seq<seq<Item>>) {
    forall i :: 0 <= i < |waits| ==> Quiet(waits[i])
  }

  lemma {:induction false} ScanPayload(k: Sock, items: seq<Item>)
    requires Core(k) && ItemsOk(k.ep.cfg, items) && Quiet(items)
    ensures Payload(Scan(k, items).0.posted) == Payload(k.posted)
    decreases |items|
  {
    hide QueueInv, Live, Lengths, IomapsOk, PollMsg, PollSend, Land, Payload, Ends, ValidConfig, TxShape, RxShape;
    if items != [] {
      ApplyInv(k, items[0]);
      if items[0].Beside? {
        PayloadAppend(k.posted, items[0].wrs);
        assert Payload(k.posted) + [] == Payload(k.posted);
      }
      ScanPayload(Apply(k, items[0]), items[1..]);
    }
  }

  lemma ReadyPayload(k: Sock, items: seq<Item>)
    requires SockInv(k) && ItemsOk(k.ep.cfg, items) && Quiet(items)
    ensures Payload(Ready(k, items).0.posted) == Payload(k.posted)
  {
    hide QueueInv, Live, Lengths, IomapsOk, ItemsOk, Quiet, Scan, Payload;
    UpdateInv(k);
    UpdatePayload(k);
    ScanPayload(Update(k), items);
    var k1 := PollAll(Update(k), items);
    UpdatePayload(k1);
  }

  /** rsend posts, in order, exactly the bytes it reports as accepted, however the
      call is cut into transfers and wherever it stops. */
  lemma {:induction false} SendLoopPayload(k: Sock, buf: seq<byte>, olen: nat, waits: seq<seq<Item>>, vectored: bool)
    requires SockInv(k) && WaitsOk(k.ep.cfg, waits) && AllQuiet(waits) && OlenOk(olen)
    ensures var (k', sent, _) := SendLoop(k, buf, olen, waits, vectored);
      Payload(k'.posted) == Payload(k.posted) + buf[..sent]
    decreases |buf|
  {
    hide SockInv, WaitsOk, ItemsOk, OlenOk, Ready, Advance, CanSend, Payload, Later;
    if buf != [] {
      WaitsSplit(k, waits);
      var (k1, err) := Ready(k, First(waits));
      ReadyPayload(k, First(waits));
      if err.None? {
        var (k2, n, olen') := Advance(k1, buf, olen, vectored);
        AdvancePayload(k1, buf, olen, vectored);
        var waits' := Later(k, waits);
        SendLoopPayload(k2, buf[n..], olen', waits', vectored);
        var sent := SendLoop(k2, buf[n..], olen', waits', vectored).1;
        assert buf[..n] + buf[n..][..sent] == buf[..n + sent];
      }
    }
  }

  lemma IomapPayload(k: Sock)
    requires Shape(k.ep) && k.iomaps != [] && IomapsOk(k.iomaps) && IOMAP_BYTES <= k.ep.cfg.sbufSize
    ensures Payload(PostIomap(k).posted) == Payload(k.posted)
  {
    var wrs := SendIomap(k.ep.cfg, k.ep.tx, k.iomaps[0].bytes, k.iomaps[0].index).1;
    PairPayload(wrs);
    PayloadAppend(k.posted, wrs);
  }

  lemma {:induction false} IomapLoopPayload(k: Sock, waits: seq<seq<Item>>)
    requires SockInv(k) && WaitsOk(k.ep.cfg, waits) && AllQuiet(waits)
    ensures Payload(IomapLoop(k, waits).0.posted) == Payload(k.posted) && AllQuiet(IomapLoop(k, waits).1)
    decreases |k.iomaps|
  {
    hide QueueInv, WaitsOk, ItemsOk, Ready, CanSend, Payload, Later, AllQuiet, Quiet;
    if k.iomaps != [] {
      WaitsSplit(k, waits);
      var (k1, err) := Ready(k, First(waits));
      ReadyPayload(k, First(waits));
      if err.None? {
        PostIomapInv(k1);
        IomapPayload(k1);
        IomapLoopPayload(PostIomap(k1), Later(k, waits));
      }
    }
  }

  /** The same of the whole call: iomap messages carry none of the stream. */
  lemma SendCallPayload(k: Sock, buf: seq<byte>, waits: seq<seq<Item>>, vectored: bool)
    requires SockInv(k) && WaitsOk(k.ep.cfg, waits) && AllQuiet(waits)
    ensures var (k', sent, _) := SendCall(k, buf, waits, vectored);
      Payload(k'.posted) == Payload(k.posted) + buf[..sent]
  {
    hide SockInv, WaitsOk, IomapLoop, SendLoop, Payload, AllQuiet;
    IomapLoopPayload(k, waits);
    var (k1, waits', err) := IomapLoop(k, waits);
    if err.None? {
      SendLoopPayload(k1, buf, OLAP_START_SIZE, waits', vectored);
    }
  }

  // ---- why the calls stop ----

  /** Having waited, rsend goes on exactly when it now can and the socket still
      writes; otherwise the error says which of the two is missing. */
  lemma ReadyExact(k: Sock, items: seq<Item>)
    requires SockInv(k) && ItemsOk(k.ep.cfg, items)
    ensures var (k', err) := Ready(k, items);
      var waited, can := !CanSend(k.ep.cfg, k.ep.tx), CanSend(k'.ep.cfg, k'.ep.tx);
      && (err == Some(EWOULDBLOCK) <==> waited && k'.ep.st.writable && !can)
      && (err == Some(ECONNRESET) <==> waited && !k'.ep.st.writable)
      && (err == None <==> !waited || (k'.ep.st.writable && can))
  {
    hide QueueInv, Live, Lengths, IomapsOk, ItemsOk, PollAll, Update;
    UpdateInv(k);
    UpdateInv(PollAll(Update(k), items));
  }

  /** Mappings are left in the queue only when the socket cannot send or no longer
      writes, and the error says which. */
  lemma {:induction false} IomapLoopExact(k: Sock, waits: seq<seq<Item>>)
    requires SockInv(k) && WaitsOk(k.ep.cfg, waits)
    ensures var (k', _, err) := IomapLoop(k, waits);
      && (k'.iomaps == [] ==> err == None)
      && (k'.iomaps != [] && k'.ep.st.writable ==> err == Some(EWOULDBLOCK) && !CanSend(k'.ep.cfg, k'.ep.tx))
      && (k'.iomaps != [] && !k'.ep.st.writable ==> err == Some(ECONNRESET))
    decreases |k.iomaps|
  {
    hide QueueInv, Live, Lengths, WaitsOk, ItemsOk, Ready, CanSend, Later, ValidConfig, TxShape, RxShape;
    if k.iomaps != [] {
      WaitsSplit(k, waits);
      ReadyExact(k, First(waits));
      var (k1, err) := Ready(k, First(waits));
      if err.None? {
        PostIomapInv(k1);
        IomapLoopExact(PostIomap(k1), Later(k, waits));
      }
    }
  }

  /** So with bytes: a partial send means that the socket, as the call leaves it,
      cannot send or no longer writes. */
  lemma {:induction false} SendLoopExact(k: Sock, buf: seq<byte>, olen: nat, waits: seq<seq<Item>>, vectored: bool)
    requires SockInv(k) && WaitsOk(k.ep.cfg, waits) && OlenOk(olen)
    ensures var (k', sent, err) := SendLoop(k, buf, olen, waits, vectored);
      && (sent == |buf| ==> err == None)
      && (sent < |buf| && k'.ep.st.writable ==> err == Some(EWOULDBLOCK) && !CanSend(k'.ep.cfg, k'.ep.tx))
      && (sent < |buf| && !k'.ep.st.writable ==> err == Some(ECONNRESET))
      && (buf != [] && CanSend(k.ep.cfg, k.ep.tx) ==> sent > 0)
    decreases |buf|
  {
    hide SockInv, WaitsOk, ItemsOk, OlenOk, Ready, Advance, CanSend, Later;
    if buf != [] {
      WaitsSplit(k, waits);
      ReadyExact(k, First(waits));
      var (k1, err) := Ready(k, First(waits));
      if err.None? {
        var (k2, n, olen') := Advance(k1, buf, olen, vectored);
        SendLoopExact(k2, buf[n..], olen', Later(k, waits), vectored);
      }
    }
  }

  /** The whole call: nothing is left over when the socket it leaves can send and
      writes, and otherwise the error is the one of that socket. */
  lemma SendCallExact(k: Sock, buf: seq<byte>, waits: seq<seq<Item>>, vectored: bool)
    requires SockInv(k) && WaitsOk(k.ep.cfg, waits)
    ensures var (k', sent, err) := SendCall(k, buf, waits, vectored); var left := k'.iomaps != [] || sent < |buf|;
      && (err == None <==> !left)
      && (left && k'.ep.st.writable ==> err == Some(EWOULDBLOCK) && !CanSend(k'.ep.cfg, k'.ep.tx))
      && (left && !k'.ep.st.writable ==> err == Some(ECONNRESET))
      && (k'.iomaps != [] ==> sent == 0)
  {
    hide SockInv, WaitsOk, IomapLoop, SendLoop, CanSend;
    IomapLoopExact(k, waits);
    var (k1, waits', err) := IomapLoop(k, waits);
    if err.None? {
      SendLoopExact(k1, buf, OLAP_START_SIZE, waits', vectored);
      SendKeepsIomaps(k1, buf, OLAP_START_SIZE, waits', vectored);
    }
  }

  lemma {:induction false} SendKeepsIomaps(k: Sock, buf: seq<byte>, olen: nat, waits: seq<seq<Item>>, vectored: bool)
    requires SockInv(k) && WaitsOk(k.ep.cfg, waits) && OlenOk(olen)
    ensures SendLoop(k, buf, olen, waits, vectored).0.iomaps == k.iomaps
    decreases |buf|
  {
    hide SockInv, WaitsOk, ItemsOk, OlenOk, Ready, Advance, CanSend, Later;
    if buf != [] {
      WaitsSplit(k, waits);
      var (k1, err) := Ready(k, First(waits));
      if err.None? {
        var (k2, n, olen') := Advance(k1, buf, olen, vectored);
        SendKeepsIomaps(k2, buf[n..], olen', Later(k, waits), vectored);
      }
    }
  }

  // ---- the mappings the calls announce ----

  /** The mapping a request writes to the peer's table, if it announces the slot it
      writes. */
  function Mapping(w: Wr): seq<Iomap> {
    if w.dst.PeerIomap? && w.dst.slot < 0x1_0000 && w.id == MsgSet(OP_IOMAP_SGL, w.dst.slot)
       && w.intent.intended.Some? && w.intent.intended.value.Bytes?
    then [Iomap.Iomap(w.intent.intended.value.bytes, w.dst.slot)]
    else []
  }

  function Mappings(wrs: seq<Wr>): seq<Iomap> {
    if wrs == [] then [] else Mapping(wrs[0]) + Mappings(wrs[1..])
  }

  lemma {:induction false} MappingsAppend(p: seq<Wr>, q: seq<Wr>)
    ensures Mappings(p + q) == Mappings(p) + Mappings(q)
  {
    hide Mapping;
    if p == [] {
      assert p + q == q;
    } else {
      MappingsAppend(p[1..], q);
      assert (p + q)[1..] == p[1..] + q;
      assert Mapping(p[0]) + (Mappings(p[1..]) + Mappings(q)) == Mapping(p[0]) + Mappings(p[1..]) + Mappings(q);
    }
  }

  lemma FewMappings(wrs: seq<Wr>)
    requires |wrs| <= 2 && (|wrs| == 2 ==> Mapping(wrs[1]) == [])
    ensures Mappings(wrs) == if wrs == [] then [] else Mapping(wrs[0])
  {
    hide Mapping;
    if |wrs| == 2 {
      assert wrs[1..][1..] == [];
      assert Mappings(wrs[1..]) == [];
    }
  }

  /** Mappings sent and mappings waiting, in order. */
  function AllMappings(k: Sock): seq<Iomap> {
    Mappings(k.posted) + k.iomaps
  }

  /** No other thread sends mappings, which the lock on them sees to. */
  predicate NoMaps(items: seq<Item>) {
    forall i :: 0 <= i < |items| && items[i].Beside? ==> Mappings(items[i].wrs) == []
  }

  ghost predicate NeverMaps(waits: seq<seq<Item>>) {
    forall i :: 0 <= i < |waits| ==> NoMaps(waits[i])
  }

  lemma NeverSplit(k: Sock, waits: seq<seq<Item>>)
    requires SockInv(k) && NeverMaps(waits)
    ensures NoMaps(First(waits)) && NeverMaps(Later(k, waits))
  {
  }

  lemma {:induction false} ScanMappings(k: Sock, items: seq<Item>)
    requires Core(k) && ItemsOk(k.ep.cfg, items) && NoMaps(items)
    ensures Mappings(Scan(k, items).0.posted) == Mappings(k.posted)
    decreases |items|
  {
    hide QueueInv, Live, Lengths, IomapsOk, PollMsg, PollSend, Land, Mappings, Ends, ValidConfig, TxShape, RxShape;
    if items != [] {
      ApplyInv(k, items[0]);
      if items[0].Beside? {
        MappingsAppend(k.posted, items[0].wrs);
        assert Mappings(k.posted) + [] == Mappings(k.posted);
      }
      ScanMappings(Apply(k, items[0]), items[1..]);
    }
  }

  lemma UpdateMappings(k: Sock)
    requires Shape(k.ep)
    ensures Mappings(Update(k).posted) == Mappings(k.posted)
  {
    var wrs := UpdateCredits(k.ep).1;
    FewMappings(wrs);
    MappingsAppend(k.posted, wrs);
    assert Mappings(k.posted) + [] == Mappings(k.posted);
  }

  lemma ReadyMappings(k: Sock, items: seq<Item>)
    requires SockInv(k) && ItemsOk(k.ep.cfg, items) && NoMaps(items)
    ensures AllMappings(Ready(k, items).0) == AllMappings(k)
  {
    hide QueueInv, Live, Lengths, IomapsOk, ItemsOk, NoMaps, Scan, Mappings;
    UpdateInv(k);
    UpdateMappings(k);
    ScanMappings(Update(k), items);
    UpdateMappings(PollAll(Update(k), items));
  }

  lemma AdvanceMappings(k: Sock, buf: seq<byte>, olen: nat, vectored: bool)
    requires SockInv(k) && CanSend(k.ep.cfg, k.ep.tx) && OlenOk(olen) && buf != []
    ensures AllMappings(Advance(k, buf, olen, vectored).0) == AllMappings(k)
  {
    hide QueueInv, Mappings, RingPut, RingNext, RingGather;
    AdvanceIs(k, buf, olen, vectored);
    var (n, _) := XferSize(k.ep.tx, olen, |buf|);
    var wrs := Transfer(k.ep.cfg, k.ep.tx, buf[..n], vectored).1;
    FewMappings(wrs);
    MappingsAppend(k.posted, wrs);
    assert Mappings(k.posted) + [] == Mappings(k.posted);
  }

  /** The first mapping of the queue is the one written, to its own slot. */
  lemma PostIomapMappings(k: Sock)
    requires Shape(k.ep) && k.iomaps != [] && IomapsOk(k.iomaps) && IOMAP_BYTES <= k.ep.cfg.sbufSize
    ensures AllMappings(PostIomap(k)) == AllMappings(k)
  {
    hide Mappings;
    var wrs := SendIomap(k.ep.cfg, k.ep.tx, k.iomaps[0].bytes, k.iomaps[0].index).1;
    FewMappings(wrs);
    MappingsAppend(k.posted, wrs);
    assert Mapping(wrs[0]) == [k.iomaps[0]];
    assert Mappings(k.posted) + [k.iomaps[0]] + k.iomaps[1..] == Mappings(k.posted) + k.iomaps;
  }

  lemma {:induction false} IomapLoopMappings(k: Sock, waits: seq<seq<Item>>)
    requires SockInv(k) && WaitsOk(k.ep.cfg, waits) && NeverMaps(waits)
    ensures var (k', rest, _) := IomapLoop(k, waits); AllMappings(k') == AllMappings(k) && NeverMaps(rest)
    decreases |k.iomaps|
  {
    hide QueueInv, WaitsOk, ItemsOk, Ready, CanSend, AllMappings, Later, NeverMaps, NoMaps;
    if k.iomaps != [] {
      WaitsSplit(k, waits);
      NeverSplit(k, waits);
      var (k1, err) := Ready(k, First(waits));
      ReadyMappings(k, First(waits));
      if err.None? {
        PostIomapInv(k1);
        PostIomapMappings(k1);
        IomapLoopMappings(PostIomap(k1), Later(k, waits));
      }
    }
  }

  lemma {:induction false} SendLoopMappings(k: Sock, buf: seq<byte>, olen: nat, waits: seq<seq<Item>>, vectored: bool)
    requires SockInv(k) && WaitsOk(k.ep.cfg, waits) && NeverMaps(waits) && OlenOk(olen)
    ensures AllMappings(SendLoop(k, buf, olen, waits, vectored).0) == AllMappings(k)
    decreases |buf|
  {
    hide SockInv, WaitsOk, ItemsOk, OlenOk, Ready, Advance, CanSend, AllMappings, Later, NeverMaps, NoMaps;
    if buf != [] {
      WaitsSplit(k, waits);
      NeverSplit(k, waits);
      var (k1, err) := Ready(k, First(waits));
      ReadyMappings(k, First(waits));
      if err.None? {
        var (k2, n, olen') := Advance(k1, buf, olen, vectored);
        AdvanceMappings(k1, buf, olen, vectored);
        SendLoopMappings(k2, buf[n..], olen', Later(k, waits), vectored);
      }
    }
  }

  /** A call loses no mapping, changes none and keeps their order: those it posted
      and those still waiting are the ones there were, and a call without error has
      posted them all. */
  lemma SendCallMappings(k: Sock, buf: seq<byte>, waits: seq<seq<Item>>, vectored: bool)
    requires SockInv(k) && WaitsOk(k.ep.cfg, waits) && NeverMaps(waits)
    ensures var (k', _, err) := SendCall(k, buf, waits, vectored);
      && Mappings(k'.posted) + k'.iomaps == Mappings(k.posted) + k.iomaps
      && (err == None ==> Mappings(k'.posted) == Mappings(k.posted) + k.iomaps)
  {
    hide SockInv, WaitsOk, IomapLoop, SendLoop, NeverMaps, Mappings;
    IomapLoopMappings(k, waits);
    var (k1, waits', err) := IomapLoop(k, waits);
    if err.None? {
      SendLoopMappings(k1, buf, OLAP_START_SIZE, waits', vectored);
      SendKeepsIomaps(k1, buf, OLAP_START_SIZE, waits', vectored);
    }
    var k' := SendCall(k, buf, waits, vectored).0;
    assert AllMappings(k') == AllMappings(k);
  }

  // ---- rsendv against rsend ----

  /** Two requests that do the same to the peer. */
  predicate SameWr(w: Wr, v: Wr) {
    w.id == v.id && w.msgSend == v.msgSend && w.dst == v.dst && w.msg == v.msg && w.intent.intended == v.intent.intended
  }

  ghost predicate SameWrs(p: seq<Wr>, q: seq<Wr>) {
    |p| == |q| && forall i :: 0 <= i < |p| ==> SameWr(p[i], q[i])
  }

  /** Sending halves that differ only in the copy ring. */
  predicate SameTx(tx: Tx, tx': Tx) {
    tx' == tx.(sbuf := tx'.sbuf, ssglAddr := tx'.ssglAddr)
  }

  ghost predicate SameSock(k: Sock, k': Sock) {
    && k'.ep == k.ep.(tx := k'.ep.tx) && SameTx(k.ep.tx, k'.ep.tx)
    && SameWrs(k.posted, k'.posted) && k'.completed == k.completed
    && k'.recvs == k.recvs && k'.iomaps == k.iomaps
  }

  lemma SameUpdate(k: Sock, k': Sock)
    requires Shape(k.ep) && Shape(k'.ep) && SameSock(k, k')
    ensures SameSock(Update(k), Update(k'))
  {
    assert UpdateCredits(k.ep).1 == UpdateCredits(k'.ep).1;
  }

  lemma SameApply(k: Sock, k': Sock, item: Item)
    requires Shape(k.ep) && Shape(k'.ep) && SameSock(k, k') && k.completed <= |k.posted| && !item.Beside?
    ensures SameSock(Apply(k, item), Apply(k', item)) && Ends(k.ep, item) == Ends(k'.ep, item)
  {
    if item.Done? && k.completed < |k.posted| {
      assert SameWr(k.posted[k.completed], k'.posted[k'.completed]);
    }
  }

  lemma {:induction false} SameScan(k: Sock, k': Sock, items: seq<Item>)
    requires Core(k) && Core(k') && SameSock(k, k') && ItemsOk(k.ep.cfg, items) && Alone(items)
    ensures var (r, n, e) := Scan(k, items); var (r', n', e') := Scan(k', items); SameSock(r, r') && n == n' && e == e'
    decreases |items|
  {
    hide QueueInv, SameWrs;
    if items != [] {
      ApplyInv(k, items[0]);
      ApplyInv(k', items[0]);
      SameApply(k, k', items[0]);
      SameScan(Apply(k, items[0]), Apply(k', items[0]), items[1..]);
    }
  }

  lemma SamePoll(k: Sock, k': Sock, items: seq<Item>)
    requires SockInv(k) && SockInv(k') && SameSock(k, k') && ItemsOk(k.ep.cfg, items) && Alone(items)
    ensures SameSock(PollAll(k, items), PollAll(k', items))
  {
    hide QueueInv, SameWrs, Scan;
    SameScan(k, k', items);
  }

  lemma SameReady(k: Sock, k': Sock, items: seq<Item>)
    requires SockInv(k) && SockInv(k') && SameSock(k, k') && ItemsOk(k.ep.cfg, items) && Alone(items)
    ensures var (k1, e) := Ready(k, items); var (k1', e') := Ready(k', items); SameSock(k1, k1') && e == e'
  {
    hide QueueInv, Update, ItemsOk;
    UpdateInv(k);
    UpdateInv(k');
    SameUpdate(k, k');
    SamePoll(Update(k), Update(k'), items);
    SameUpdate(PollAll(Update(k), items), PollAll(Update(k'), items));
  }

  lemma SameTransfer(c: Config, tx: Tx, tx': Tx, data: seq<byte>, v: bool, v': bool)
    requires TxShape(c, tx) && TxShape(c, tx') && SameTx(tx, tx') && |data| <= c.sbufSize && |data| <= MAX_TRANSFER
    ensures var (r, wrs) := Transfer(c, tx, data, v); var (r', wrs') := Transfer(c, tx', data, v');
      SameTx(r, r') && SameWrs(wrs, wrs')
  {
    hide RingPut, RingNext, RingGather;
  }

  lemma SameAppend(p: seq<Wr>, p': seq<Wr>, q: seq<Wr>, q': seq<Wr>)
    requires SameWrs(p, p') && SameWrs(q, q')
    ensures SameWrs(p + q, p' + q')
  {
  }

  lemma SamePost(k: Sock, k': Sock, data: seq<byte>, v: bool, v': bool)
    requires Shape(k.ep) && Shape(k'.ep) && SameSock(k, k')
    requires |data| <= k.ep.cfg.sbufSize && |data| <= MAX_TRANSFER
    ensures SameSock(Post(k, data, v), Post(k', data, v'))
  {
    hide Transfer, SameWrs;
    SameTransfer(k.ep.cfg, k.ep.tx, k'.ep.tx, data, v, v');
    SameAppend(k.posted, k'.posted, Transfer(k.ep.cfg, k.ep.tx, data, v).1, Transfer(k'.ep.cfg, k'.ep.tx, data, v').1);
  }

  lemma SameAdvance(k: Sock, k': Sock, buf: seq<byte>, olen: nat, v: bool, v': bool)
    requires SockInv(k) && SockInv(k') && SameSock(k, k') && OlenOk(olen) && buf != []
    requires CanSend(k.ep.cfg, k.ep.tx) && CanSend(k'.ep.cfg, k'.ep.tx)
    ensures var (r, n, olen1) := Advance(k, buf, olen, v); var (r', n', olen1') := Advance(k', buf, olen, v');
      SameSock(r, r') && n == n' && olen1 == olen1'
  {
    hide QueueInv, SameWrs, CanSend;
    NextFits(k, olen, |buf|);
    var (n, _) := XferSize(k.ep.tx, olen, |buf|);
    SamePost(k, k', buf[..n], v, v');
  }

  lemma SameCanSend(k: Sock, k': Sock)
    requires Shape(k.ep) && Shape(k'.ep) && SameSock(k, k')
    ensures k.ep.cfg == k'.ep.cfg && CanSend(k.ep.cfg, k.ep.tx) == CanSend(k'.ep.cfg, k'.ep.tx)
  {
  }

  /** rsendv does to the peer exactly what rsend of the concatenated buffers does:
      the same transfers to the same places, the same bytes and the same result,
      though the two may use the copy ring differently. */
  lemma {:induction false} VectoredIsPlain(k: Sock, k': Sock, buf: seq<byte>, olen: nat, waits: seq<seq<Item>>)
    requires SockInv(k) && SockInv(k') && SameSock(k, k') && WaitsOk(k.ep.cfg, waits) && AllAlone(waits) && OlenOk(olen)
    ensures var (r, sent, err) := SendLoop(k, buf, olen, waits, false);
      var (r', sent', err') := SendLoop(k', buf, olen, waits, true);
      sent == sent' && err == err' && SameSock(r, r')
    decreases |buf|
  {
    hide QueueInv, WaitsOk, ItemsOk, OlenOk, Ready, Advance, CanSend, SameWrs, ValidConfig, TxShape, RxShape;
    SameCanSend(k, k');
    if buf != [] {
      WaitsSplit(k, waits);
      SameReady(k, k', First(waits));
      var (k1, err) := Ready(k, First(waits));
      var (k1', _) := Ready(k', First(waits));
      if err.None? {
        var (k2, n, olen') := Advance(k1, buf, olen, false);
        var (k2', _, _) := Advance(k1', buf, olen, true);
        SameAdvance(k1, k1', buf, olen, false, true);
        VectoredIsPlain(k2, k2', buf[n..], olen', Later(k, waits));
      }
    }
  }

  lemma SameIomap(k: Sock, k': Sock)
    requires Shape(k.ep) && Shape(k'.ep) && SameSock(k, k')
    requires k.iomaps != [] && IomapsOk(k.iomaps) && IOMAP_BYTES <= k.ep.cfg.sbufSize
    ensures SameSock(PostIomap(k), PostIomap(k'))
  {
    hide RingPut, RingNext, RingGather, SameWrs;
    var wrs := SendIomap(k.ep.cfg, k.ep.tx, k.iomaps[0].bytes, k.iomaps[0].index).1;
    var wrs' := SendIomap(k'.ep.cfg, k'.ep.tx, k'.iomaps[0].bytes, k'.iomaps[0].index).1;
    SameWrsPair(wrs, wrs');
    SameAppend(k.posted, k'.posted, wrs, wrs');
  }

  lemma SameWrsPair(wrs: seq<Wr>, wrs': seq<Wr>)
    requires 1 <= |wrs| == |wrs'| <= 2 && SameWr(wrs[0], wrs'[0]) && (|wrs| == 2 ==> SameWr(wrs[1], wrs'[1]))
    ensures SameWrs(wrs, wrs')
  {
  }

  lemma {:induction false} SameIomapLoop(k: Sock, k': Sock, waits: seq<seq<Item>>)
    requires SockInv(k) && SockInv(k') && SameSock(k, k') && WaitsOk(k.ep.cfg, waits) && AllAlone(waits)
    ensures var (r, w, e) := IomapLoop(k, waits); var (r', w', e') := IomapLoop(k', waits);
      SameSock(r, r') && w == w' && e == e' && AllAlone(w)
    decreases |k.iomaps|
  {
    hide QueueInv, WaitsOk, ItemsOk, Ready, CanSend, SameWrs, ValidConfig, TxShape, RxShape, PostIomap, AllAlone, Alone;
    SameCanSend(k, k');
    if k.iomaps != [] {
      WaitsSplit(k, waits);
      SameReady(k, k', First(waits));
      var (k1, err) := Ready(k, First(waits));
      var (k1', _) := Ready(k', First(waits));
      if err.None? {
        PostIomapInv(k1);
        PostIomapInv(k1');
        SameIomap(k1, k1');
        PostIomapPops(k1);
        SameIomapLoop(PostIomap(k1), PostIomap(k1'), Later(k, waits));
      }
    }
  }

  lemma PostIomapPops(k: Sock)
    requires Shape(k.ep) && k.iomaps != [] && IomapsOk(k.iomaps) && IOMAP_BYTES <= k.ep.cfg.sbufSize
    ensures PostIomap(k).iomaps == k.iomaps[1..]
  {
  }

  /** The same of the whole call. */
  lemma VectoredCall(k: Sock, k': Sock, buf: seq<byte>, waits: seq<seq<Item>>)
    requires SockInv(k) && SockInv(k') && SameSock(k, k') && WaitsOk(k.ep.cfg, waits) && AllAlone(waits)
    ensures var (r, sent, err) := SendCall(k, buf, waits, false);
      var (r', sent', err') := SendCall(k', buf, waits, true);
      sent == sent' && err == err' && SameSock(r, r')
  {
    hide SockInv, WaitsOk, IomapLoop, SendLoop, AllAlone;
    SameIomapLoop(k, k', waits);
    var (k1, waits', err) := IomapLoop(k, waits);
    if err.None? {
      VectoredIsPlain(k1, IomapLoop(k', waits).0, buf, OLAP_START_SIZE, waits');
    }
  }

  // ---- receiving ----

  /** One pass of the copy loop takes something, and leaves less. */
  lemma ChunkProgress(c: Config, rx: Rx, left: nat)
    requires RxShape(c, rx) && Live(c, rx) && HaveRdata(rx) && left > 0
    ensures HeadFits(c, rx)
    ensures var (rx', out) := RecvChunk(c, rx, left);
      && RxShape(c, rx') && Live(c, rx') && 1 <= |out| <= left
      && (Between(c, rx'.rmsgHead, rx'.rmsgTail) < Between(c, rx.rmsgHead, rx.rmsgTail)
          || (rx'.rmsgHead == rx.rmsgHead && rx'.rmsgTail == rx.rmsgTail && |out| == left))
  {
    hide RingBytes, RingStop;
  }

  /** rrecv's copy loop with room for `left` bytes. */
  ghost function RecvLoop(c: Config, rx: Rx, left: nat): (r: (Rx, seq<byte>))
    requires RxShape(c, rx) && Live(c, rx)
    ensures RxShape(c, r.0) && Live(c, r.0) && |r.1| <= left
    ensures left > 0 && HaveRdata(rx) ==> r.1 != []
    ensures |r.1| < left ==> !HaveRdata(r.0)
    decreases Between(c, rx.rmsgHead, rx.rmsgTail), left
  {
    if left == 0 || !HaveRdata(rx) then (rx, [])
    else
      ChunkProgress(c, rx, left);
      var (rx1, out) := RecvChunk(c, rx, left);
      var (rx2, rest) := RecvLoop(c, rx1, left - |out|);
      (rx2, out + rest)
  }

  /** What rrecv sees at the head of an iteration: the state after waiting if it had
      to, or why it gives up. */
  ghost function Arrived(k: Sock, items: seq<Item>): (r: (Sock, Option<Errno>))
    requires SockInv(k) && ItemsOk(k.ep.cfg, items)
    ensures SockInv(r.0) && r.0.ep.cfg == k.ep.cfg
  {
    if HaveRdata(k.ep.rx) then (k, None)
    else
      UpdateInv(k);
      var k1 := PollAll(Update(k), items);
      UpdateInv(k1);
      (Update(k1), if !HaveRdata(k1.ep.rx) && k1.ep.st.readable then Some(EWOULDBLOCK) else None)
  }

  /** The state after the copy loop, and what it returned. */
  ghost function Copied(k: Sock, len: nat): (r: (Sock, seq<byte>))
    requires SockInv(k)
    ensures SockInv(r.0) && r.0.ep == k.ep.(rx := r.0.ep.rx) && |r.1| <= len
    ensures |r.1| < len ==> !HaveRdata(r.0.ep.rx)
    ensures len > 0 ==> (r.1 == [] <==> !HaveRdata(k.ep.rx))
  {
    var (rx, out) := RecvLoop(k.ep.cfg, k.ep.rx, len);
    (k.(ep := k.ep.(rx := rx)), out)
  }

  /** A wait in which nothing happens brings nothing. */
  lemma NothingArrives(k: Sock)
    requires SockInv(k)
    ensures var (k1, err) := Arrived(k, []);
      !HaveRdata(k.ep.rx) ==> !HaveRdata(k1.ep.rx) && (err.None? ==> !k1.ep.st.readable)
  {
    UpdateInv(k);
    UpdateInv(PollAll(Update(k), []));
  }

  /** rrecv: the final state, the bytes returned and the error that stopped it. With
      MSG_PEEK what is returned stays queued, and with MSG_WAITALL it goes on until
      `len` bytes have come or the socket is no longer readable. */
  ghost function RecvCall(k: Sock, len: nat, waits: seq<seq<Item>>, peek: bool, waitAll: bool): (r: (Sock, seq<byte>,
                          Option<Errno>))
    requires SockInv(k) && WaitsOk(k.ep.cfg, waits)
    ensures SockInv(r.0) && |r.1| <= len
    decreases |waits|, if HaveRdata(k.ep.rx) then 1 else 0
  {
    var (k1, err) := Arrived(k, First(waits));
    if err.Some? then (k1, [], err)
    else if peek then (k1, Copied(k1, len).1, None)
    else
      var (k2, out) := Copied(k1, len);
      if |out| < len && waitAll && k2.ep.st.readable then
        NothingArrives(k);
        var waits' := if HaveRdata(k.ep.rx) then waits else Rest(waits);
        var (k', rest, err') := RecvCall(k2, len - |out|, waits', peek, waitAll);
        (k', out + rest, err')
      else (k2, out, None)
  }

  /** rrecv says end of stream, no byte and no error, exactly when what it sees
      after at most one wait is an empty queue on a socket that is not readable. */
  lemma EndExact(k: Sock, len: nat, waits: seq<seq<Item>>, peek: bool, waitAll: bool)
    requires SockInv(k) && WaitsOk(k.ep.cfg, waits) && len > 0
    ensures var (k', out, err) := RecvCall(k, len, waits, peek, waitAll);
      var e := Arrived(k, First(waits)).0.ep;
      && (out == [] && err.None? <==> !HaveRdata(e.rx) && !e.st.readable)
      && (out == [] && err.None? ==> !HaveRdata(k'.ep.rx) && !k'.ep.st.readable)
  {
    hide Core, Update, PollAll, Copied;
    ArrivedExact(k, First(waits));
  }

  lemma ArrivedExact(k: Sock, items: seq<Item>)
    requires SockInv(k) && ItemsOk(k.ep.cfg, items)
    ensures var (k1, err) := Arrived(k, items); err.Some? <==> !HaveRdata(k1.ep.rx) && k1.ep.st.readable
  {
    hide QueueInv, ItemsOk, PollAll;
    UpdateInv(k);
    UpdateInv(PollAll(Update(k), items));
  }

  // ---- what the copy loop takes ----

  /** The bytes of the messages from entry `head` up to `tail`. */
  function BytesQueued(c: Config, rmsg: seq<Rmsg>, head: nat, tail: nat): nat
    requires |rmsg| == c.rqSize + 1 && head <= c.rqSize && tail <= c.rqSize
    decreases Between(c, head, tail)
  {
    if head == tail then 0 else rmsg[head].data + BytesQueued(c, rmsg, NextEntry(c, head), tail)
  }

  /** An entry outside the range does not count. */
  lemma {:induction false} BytesOutside(c: Config, rmsg: seq<Rmsg>, head: nat, tail: nat, i: nat, m: Rmsg)
    requires |rmsg| == c.rqSize + 1 && head <= c.rqSize && tail <= c.rqSize && i <= c.rqSize
    requires Between(c, head, i) >= Between(c, head, tail)
    ensures BytesQueued(c, rmsg[i := m], head, tail) == BytesQueued(c, rmsg, head, tail)
    decreases Between(c, head, tail)
  {
    if head != tail {
      BytesOutside(c, rmsg, NextEntry(c, head), tail, i, m);
    }
  }

  lemma ChunkTakes(c: Config, rx: Rx, left: nat)
    requires HeadFits(c, rx) && HaveRdata(rx)
    ensures var (rx', out) := RecvChunk(c, rx, left);
      && |out| == (if left < rx.rmsg[rx.rmsgHead].data then left else rx.rmsg[rx.rmsgHead].data)
      && BytesQueued(c, rx'.rmsg, rx'.rmsgHead, rx'.rmsgTail)
         == BytesQueued(c, rx.rmsg, rx.rmsgHead, rx.rmsgTail) - |out|
  {
    var h := rx.rmsgHead;
    if left < rx.rmsg[h].data {
      BytesOutside(c, rx.rmsg, NextEntry(c, h), rx.rmsgTail, h, Rmsg(rx.rmsg[h].op, rx.rmsg[h].data - left));
    }
  }

  lemma QueuedBytes(c: Config, rx: Rx)
    requires RxShape(c, rx)
    ensures |rx.rmsg| == c.rqSize + 1 && rx.rmsgHead <= c.rqSize && rx.rmsgTail <= c.rqSize
    ensures !HaveRdata(rx) ==> BytesQueued(c, rx.rmsg, rx.rmsgHead, rx.rmsgTail) == 0
  {
  }

  /** rrecv returns as much as it has room for, or else all that is queued. */
  lemma {:induction false} RecvTakes(c: Config, rx: Rx, left: nat)
    requires RxShape(c, rx) && Live(c, rx)
    ensures var (rx', out) := RecvLoop(c, rx, left); var queued := BytesQueued(c, rx.rmsg, rx.rmsgHead, rx.rmsgTail);
      && |out| == (if left < queued then left else queued)
      && BytesQueued(c, rx'.rmsg, rx'.rmsgHead, rx'.rmsgTail) == queued - |out|
    decreases Between(c, rx.rmsgHead, rx.rmsgTail), left
  {
    hide RecvChunk, Live, Between, BytesQueued, RxShape;
    QueuedBytes(c, rx);
    if left > 0 && HaveRdata(rx) {
      ChunkProgress(c, rx, left);
      var (rx1, out) := RecvChunk(c, rx, left);
      ChunkTakes(c, rx, left);
      RecvTakes(c, rx1, left - |out|);
    }
  }

  // ---- why rrecv stops ----

  /** rrecv fails only on an empty queue of a readable socket. It returns less than
      asked only with an empty queue, and with MSG_WAITALL, unless it failed, only on
      a socket that is no longer readable. */
  lemma {:induction false} RecvStops(k: Sock, len: nat, waits: seq<seq<Item>>, peek: bool, waitAll: bool)
    requires SockInv(k) && WaitsOk(k.ep.cfg, waits)
    ensures var (k', out, err) := RecvCall(k, len, waits, peek, waitAll);
      && (err.Some? ==> k'.ep.st.readable && !HaveRdata(k'.ep.rx))
      && (|out| < len && !peek ==> !HaveRdata(k'.ep.rx))
      && (|out| < len && !peek && waitAll ==> (err.Some? <==> k'.ep.st.readable))
    decreases |waits|, if HaveRdata(k.ep.rx) then 1 else 0
  {
    hide SockInv, Arrived, Copied, WaitsOk;
    WaitsRest(k.ep.cfg, waits);
    ArrivedExact(k, First(waits));
    var (k1, err) := Arrived(k, First(waits));
    if err.None? && !peek {
      var (k2, out) := Copied(k1, len);
      if |out| < len && waitAll && k2.ep.st.readable {
        NothingArrives(k);
        RecvStops(k2, len - |out|, if HaveRdata(k.ep.rx) then waits else Rest(waits), peek, waitAll);
      }
    }
  }

  /** Without MSG_WAITALL it returns, of what is queued once it has waited, as much
      as it has room for; MSG_PEEK leaves all of it queued. */
  lemma RecvAmount(k: Sock, len: nat, waits: seq<seq<Item>>, peek: bool)
    requires SockInv(k) && WaitsOk(k.ep.cfg, waits)
    ensures var (k', out, err) := RecvCall(k, len, waits, peek, false);
      var e, e' := Arrived(k, First(waits)).0.ep, k'.ep;
      && RxShape(e.cfg, e.rx) && RxShape(e'.cfg, e'.rx)
      && var queued := BytesQueued(e.cfg, e.rx.rmsg, e.rx.rmsgHead, e.rx.rmsgTail);
      && (err.None? ==> |out| == if len < queued then len else queued)
      && BytesQueued(e'.cfg, e'.rx.rmsg, e'.rx.rmsgHead, e'.rx.rmsgTail) == queued - (if peek then 0 else |out|)
  {
    hide QueueInv, Lengths, IomapsOk, Arrived, BytesQueued, RecvLoop, WaitsOk;
    WaitsRest(k.ep.cfg, waits);
    var (k1, err) := Arrived(k, First(waits));
    RecvTakes(k1.ep.cfg, k1.ep.rx, len);
  }
}
