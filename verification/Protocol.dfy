/** Two connected rsockets as a step system. A step is one atomic action of one
    endpoint or of the adapter on its behalf; a run is any sequence of enabled
    steps of both, so every interleaving, chunking and delay is covered. */
module Protocol {
  import opened Common
  import opened Wire
  import opened EndpointOps
  import opened SendQueue
  import opened Channel
  import opened ChannelSteps

  /** An endpoint, the requests it posted, the history of the direction it sends
      in, and its rshutdown in progress: the control message chosen but not yet
      posted, whether it is waiting for a control entry, and whether it ever shut
      down reading. */
  datatype Node = Node(ep: Endpoint, link: Link, h: Hist, pending: Option<nat>, waiting: bool, readShut: bool)

  datatype System = System(a: Node, b: Node)

  function Swap(s: System): System {
    System(s.b, s.a)
  }

  datatype How = ShutRd | ShutWr | ShutRdWr

  /** What one endpoint, or the adapter for it, can do.
      Send       one transfer of rsend or rsendv
      Iomap      one message of rs_send_iomaps
      Direct     one transfer of riowrite
      Credits    rs_send_credits
      Keepalive  tcp_svc_send_keepalive
      Shutdown   the start of rshutdown, up to its first look for a control entry
      Resume     the end of its wait for one, which gives credits once more
      Close      the rest of rshutdown, which posts its message if an entry is left
      Deliver    the oldest posted request is executed at the peer
      Complete   rs_poll_cq on a send completion
      Poll       rs_poll_cq on a receive completion
      Recv       one pass of rrecv's copy loop */
  datatype Act =
    | Send(data: seq<byte>, vectored: bool)
    | Iomap(iom: seq<byte>, index: nat)
    | Direct(data: seq<byte>)
    | Credits
    | Keepalive
    | Shutdown(how: How)
    | Resume
    | Close
    | Deliver
    | Complete
    | Poll
    | Recv(left: nat)

  // ---- the start ----

  function InitHist(peer: Config): Hist {
    Hist(Msgs([], [], [], 0, 0, 0, 0, None, false), Space(0, 1, 1), Credit(0, [peer.rqSize], 1, 1))
  }

  function InitNode(c: Config, peer: Config): Node {
    Node(SaveConn(InitBufs(c), FormatConn(InitBufs(peer))), Link([], [], []), InitHist(peer), None, false, false)
  }

  /** Both endpoints have exchanged their connection data. */
  function Init(ca: Config, cb: Config): System {
    System(InitNode(ca, cb), InitNode(cb, ca))
  }

  // ---- the steps of node a ----

  /** The control message of rshutdown, once the state bits are cleared. */
  function ShutState(st: SockState, how: How): SockState {
    match how
    case ShutRdWr => st.(readable := false, writable := false)
    case ShutWr => st.(writable := false)
    case ShutRd => st.(readable := false)
  }

  function ShutCtrl(st: SockState, how: How): Option<nat> {
    match how
    case ShutRdWr => Some(CTRL_DISCONNECT)
    case ShutWr => Some(if st.readable then CTRL_SHUTDOWN else CTRL_DISCONNECT)
    case ShutRd => if st.writable then None else Some(CTRL_DISCONNECT)
  }

  ghost predicate Enabled(s: System, act: Act) {
    var e := s.a.ep;
    && Shape(e)
    && match act
       case Send(data, _) =>
         && CanSend(e.cfg, e.tx) && 1 <= |data| <= MAX_TRANSFER
         && |data| <= e.tx.sbufBytesAvail && |data| <= e.cfg.sbufSize
         && |data| <= e.tx.targetSgl[e.tx.targetSge].length
       case Iomap(iom, index) =>
         CanSend(e.cfg, e.tx) && |iom| == IOMAP_BYTES <= e.cfg.sbufSize && index < 0x1_0000
       case Direct(data) =>
         && CanSend(e.cfg, e.tx) && 1 <= |data| <= MAX_TRANSFER
         && |data| <= e.tx.sbufBytesAvail && |data| <= e.cfg.sbufSize
       case Credits => GiveCredits(e)
       case Keepalive => CtrlAvail(e.tx) && e.st.connected
       case Shutdown(how) => e.st.connected && s.a.pending.None?
       case Resume => s.a.pending.Some? && s.a.waiting && (CtrlAvail(e.tx) || !e.st.connected)
       case Close => s.a.pending.Some? && !s.a.waiting && s.a.pending.value <= CTRL_SHUTDOWN
       case Deliver => s.a.link.inFlight != []
       case Complete => s.a.link.acked != []
       case Poll => s.b.link.arrived != []
       case Recv(left) => HaveRdata(e.rx) && HeadFits(e.cfg, e.rx) && left > 0
  }

  /** Node a with endpoint `e` after posting `wrs`. */
  function Posted(n: Node, e: Endpoint, wrs: seq<Wr>): Node {
    n.(ep := e, link := n.link.(inFlight := n.link.inFlight + wrs))
  }

  /** The history records where the first close message was posted. */
  function HClose(h: Hist, ctrl: nat): Hist {
    if h.m.closeAt.None? && ctrl != CTRL_KEEPALIVE then h.(m := h.m.(closeAt := Some(|h.m.lens|))) else h
  }

  /** Node a posts control message `ctrl`. */
  function PostCtrl(n: Node, ctrl: nat): Node
    requires ctrl <= CTRL_SHUTDOWN
  {
    var (e, wrs) := SendCtrl(n.ep, ctrl);
    Posted(n, e, wrs).(pending := None, h := HClose(n.h, ctrl))
  }

  /** Node a gives credits. */
  function Credited(s: System): System
    requires CanGive(s.a.ep)
  {
    var e := s.a.ep;
    var (e', wrs) := SendCredits(e);
    System(Posted(s.a, e', wrs),
           s.b.(h := HCredits(s.b.h, e.cfg.rqSize, e.rx.rbufBytesAvail >= e.cfg.Half())))
  }

  /** rs_update_credits of node a */
  function Updated(s: System): System
    requires CanGive(s.a.ep)
  {
    if GiveCredits(s.a.ep) then Credited(s) else s
  }

  /** The test of rshutdown before it posts its message. */
  predicate EntryLeft(e: Endpoint) {
    e.st.connected && CtrlAvail(e.tx)
  }

  ghost function Step(s: System, act: Act): System
    requires Enabled(s, act)
  {
    var e := s.a.ep;
    match act
    case Send(data, vectored) =>
      var (tx', wrs) := Transfer(e.cfg, e.tx, data, vectored);
      s.(a := Posted(s.a, e.(tx := tx'), wrs)
              .(h := HSend(s.a.h, data, e.tx.targetSgl[e.tx.targetSge].length == |data|)))
    case Iomap(iom, index) =>
      var (tx', wrs) := SendIomap(e.cfg, e.tx, iom, index);
      s.(a := Posted(s.a, e.(tx := tx'), wrs).(h := s.a.h.(c := s.a.h.c.(iomaps := s.a.h.c.iomaps + 1))))
    case Direct(data) =>
      var (tx', wrs) := SendDirect(e.cfg, e.tx, data);
      s.(a := Posted(s.a, e.(tx := tx'), wrs))
    case Credits => Credited(s)
    case Keepalive =>
      var (e', wrs) := SendKeepalive(e);
      s.(a := Posted(s.a, e', wrs))
    case Shutdown(how) =>
      var st := ShutState(e.st, how);
      var n := s.a.(ep := e.(st := st), readShut := s.a.readShut || how != ShutWr);
      match ShutCtrl(st, how) {
        case None => s.(a := n)
        case Some(ctrl) => s.(a := n.(pending := Some(ctrl), waiting := !CtrlAvail(e.tx)))
      }
    case Resume =>
      var s1 := Updated(s);
      s1.(a := s1.a.(waiting := false))
    case Close => s.(a := if EntryLeft(s.a.ep) then PostCtrl(s.a, s.a.pending.value) else s.a.(pending := None))
    case Deliver =>
      var w := s.a.link.inFlight[0];
      System(s.a.(link := Executed(s.a.link), h := HLanded(s.a.h, w)),
             s.b.(ep := Land(s.b.ep, w.dst, Fetch(e.tx, w.src)), h := HAnnounced(s.b.h, w)))
    case Complete =>
      var w := s.a.link.acked[0];
      s.(a := s.a.(ep := PollSend(e, w.id, w.msgSend), link := s.a.link.(acked := s.a.link.acked[1..])))
    case Poll =>
      var msg := s.b.link.arrived[0];
      System(s.a.(ep := PollMsg(e, msg), h := HSeen(s.a.h, msg)),
             s.b.(link := Polled(s.b.link), h := HPolled(s.b.h, msg)))
    case Recv(left) =>
      var (rx', out) := RecvChunk(e.cfg, e.rx, left);
      System(s.a.(ep := e.(rx := rx')),
             s.b.(h := s.b.h.(m := MRecv(s.b.h.m, out, left >= e.rx.rmsg[e.rx.rmsgHead].data))))
  }

  // ---- the invariant ----

  /** A node that stopped reading without being told to locally has polled the
      peer's close message; so has one that sends DISCONNECT. */
  ghost predicate CloseInv(n: Node, peer: Hist) {
    n.readShut || peer.m.closeSeen ||
    (n.ep.st.readable && n.pending != Some(CTRL_DISCONNECT)
     && forall i :: 0 <= i < |n.link.Out()| ==> n.link.Out()[i].id != MsgSet(OP_CTRL, CTRL_DISCONNECT))
  }

  ghost predicate NodeInv(n: Node, peer: Node) {
    && Shape(n.ep)
    && QueueInv(n.ep.cfg, n.ep.tx, n.link.Out())
    && CloseInv(n, peer.h)
  }

  ghost predicate Inv(s: System) {
    && NodeInv(s.a, s.b) && NodeInv(s.b, s.a)
    && DirInv(s.a.ep, s.b.ep, s.a.link, s.b.link, s.a.h)
    && DirInv(s.b.ep, s.a.ep, s.b.link, s.a.link, s.b.h)
  }

  lemma InitInv(ca: Config, cb: Config)
    requires ValidConfig(ca) && ValidConfig(cb)
    ensures Inv(Init(ca, cb))
  {
    InitNodeInv(ca, cb);
    InitNodeInv(cb, ca);
    InitDirInv(ca, cb);
    InitDirInv(cb, ca);
  }

  lemma InitNodeInv(c: Config, peer: Config)
    requires ValidConfig(c) && ValidConfig(peer)
    ensures NodeInv(InitNode(c, peer), InitNode(peer, c))
  {
    InitQueue(c, InitNode(c, peer).ep.tx);
  }

  lemma InitDirInv(ca: Config, cb: Config)
    requires ValidConfig(ca) && ValidConfig(cb)
    ensures var s := Init(ca, cb); DirInv(s.a.ep, s.b.ep, s.a.link, s.b.link, s.a.h)
  {
  }
}
