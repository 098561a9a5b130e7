/** Every step keeps the invariant, so every reachable state satisfies it. */
module ProtocolInv {
  import opened Common
  import opened Wire
  import opened EndpointOps
  import opened SendQueue
  import opened Channel
  import opened ChannelSteps
  import opened Protocol

  const DISCONNECT_ID := MsgSet(OP_CTRL, CTRL_DISCONNECT)

  // ---- what changes at one node ----

  /** A node that posts requests other than DISCONNECT. */
  lemma PostedInv(n: Node, n': Node, wrs: seq<Wr>, peer: Node, peer': Node)
    requires NodeInv(n, peer) && Shape(n'.ep)
    requires n'.link.Out() == n.link.Out() + wrs && n'.ep.st == n.ep.st
    requires n'.readShut == n.readShut && n'.pending == n.pending
    requires QueueInv(n'.ep.cfg, n'.ep.tx, n.link.Out() + wrs)
    requires forall i :: 0 <= i < |wrs| ==> wrs[i].id != DISCONNECT_ID
    requires peer'.h.m.closeSeen == peer.h.m.closeSeen
    ensures NodeInv(n', peer')
  {
  }

  /** A node left alone, whatever its peer does to its history. */
  lemma PeerInv(n: Node, n': Node, peer: Node, peer': Node)
    requires NodeInv(n, peer) && n' == n.(h := n'.h)
    requires peer.h.m.closeSeen ==> peer'.h.m.closeSeen
    ensures NodeInv(n', peer')
  {
  }

  lemma PostedOut(n: Node, e: Endpoint, wrs: seq<Wr>)
    ensures Posted(n, e, wrs).link.Out() == n.link.Out() + wrs
  {
  }

  // ---- the steps ----

  lemma SendInv(s: System, data: seq<byte>, vectored: bool)
    requires Inv(s) && Enabled(s, Send(data, vectored))
    ensures Inv(Step(s, Send(data, vectored)))
  {
    var act := Send(data, vectored);
    var s', e := Step(s, act), s.a.ep;
    var (tx', wrs) := Transfer(e.cfg, e.tx, data, vectored);
    TransferSends(e.cfg, e.tx, data, vectored);
    TransferKeeps(e.cfg, e.tx, s.a.link.Out(), data, vectored);
    TransferIds(e.cfg, e.tx, data, vectored);
    PostedOut(s.a, e.(tx := tx'), wrs);
    PostedInv(s.a, s'.a, wrs, s.b, s'.b);
    PeerInv(s.b, s'.b, s.a, s'.a);
    SendStep(e, s.b.ep, s.a.link, s'.a.link, s.b.link, s.a.h, tx', wrs, data);
    RcvOther(s.b.ep, e, s'.a.ep, s.b.link, s.a.link, s'.a.link, wrs, s.b.h);
  }

  lemma TransferIds(c: Config, tx: Tx, data: seq<byte>, vectored: bool)
    requires TxShape(c, tx) && |data| <= c.sbufSize && |data| <= MAX_TRANSFER
    ensures var (_, wrs) := Transfer(c, tx, data, vectored);
      forall i :: 0 <= i < |wrs| ==> wrs[i].id != DISCONNECT_ID
  {
    MsgRoundTrip(OP_DATA, |data|);
  }

  /** Requests of no concern to either direction's data flow. */
  ghost predicate Quiet(wrs: seq<Wr>) {
    forall i :: 0 <= i < |wrs| ==> NoData(wrs[i], 0, None) && NoGrant(wrs[i]) && wrs[i].id != DISCONNECT_ID
  }

  /** Node a posts quiet requests. */
  lemma QuietInv(s: System, a': Node, wrs: seq<Wr>)
    requires Inv(s) && Quiet(wrs)
    requires a'.ep.cfg == s.a.ep.cfg && Shape(a'.ep) && SameFlow(s.a.ep.tx, a'.ep.tx)
    requires a'.ep.rx == s.a.ep.rx && a'.ep.st == s.a.ep.st
    requires a' == Posted(s.a, a'.ep, wrs) && QueueInv(a'.ep.cfg, a'.ep.tx, s.a.link.Out() + wrs)
    ensures Inv(System(a', s.b))
  {
    PostedOut(s.a, a'.ep, wrs);
    PostedInv(s.a, a', wrs, s.b, s.b);
    SndOther(s.a.ep, a'.ep, s.b.ep, s.a.link, a'.link, wrs, s.b.link, s.a.h, s.a.h.m.closeAt);
    RcvOther(s.b.ep, s.a.ep, a'.ep, s.b.link, s.a.link, a'.link, wrs, s.b.h);
  }

  lemma IomapQuiet(c: Config, tx: Tx, iom: seq<byte>, index: nat)
    requires TxShape(c, tx) && |iom| == IOMAP_BYTES <= c.sbufSize && index < 0x1_0000
    ensures var (tx', wrs) := SendIomap(c, tx, iom, index);
      && Quiet(wrs) && TxShape(c, tx') && SameFlow(tx, tx'.(sseqNo := tx.sseqNo)) && tx'.sseqNo == U16(tx.sseqNo + 1)
  {
    MsgRoundTrip(OP_IOMAP_SGL, index);
    MsgRoundTrip(OP_IOMAP_SGL, 0);
  }

  /** Node a posts quiet requests that take one credit. */
  lemma IomapCore(s: System, a': Node, wrs: seq<Wr>)
    requires Inv(s) && Quiet(wrs) && s.a.ep.tx.sseqNo != s.a.ep.tx.sseqComp
    requires a'.ep.cfg == s.a.ep.cfg && Shape(a'.ep) && a'.ep.rx == s.a.ep.rx && a'.ep.st == s.a.ep.st
    requires SameFlow(s.a.ep.tx, a'.ep.tx.(sseqNo := s.a.ep.tx.sseqNo))
    requires a'.ep.tx.sseqNo == U16(s.a.ep.tx.sseqNo + 1)
    requires a' == Posted(s.a, a'.ep, wrs).(h := s.a.h.(c := s.a.h.c.(iomaps := s.a.h.c.iomaps + 1)))
    requires QueueInv(a'.ep.cfg, a'.ep.tx, s.a.link.Out() + wrs)
    ensures Inv(System(a', s.b))
  {
    hide StreamInv, SentWithin, LimitsGiven, SpaceGiven, SpaceUsed, TargetInv, RingInv, MemInv, OffsetOk,
         FwdPipe, ArrPipe, BwdPipe, ArrLimits, QueueInv;
    PostedOut(s.a, a'.ep, wrs);
    PostedInv(s.a, a', wrs, s.b, s.b);
    PeerInv(s.b, s.b, s.a, a');
    IomapStep(s.a.ep, a'.ep, s.b.ep, s.a.link, a'.link, wrs, s.b.link, s.a.h);
    RcvOther(s.b.ep, s.a.ep, a'.ep, s.b.link, s.a.link, a'.link, wrs, s.b.h);
  }

  lemma IomapInv(s: System, iom: seq<byte>, index: nat)
    requires Inv(s) && Enabled(s, Iomap(iom, index))
    ensures Inv(Step(s, Iomap(iom, index)))
  {
    hide DirInv, QueueInv, Quiet;
    var e := s.a.ep;
    var (tx', wrs) := SendIomap(e.cfg, e.tx, iom, index);
    IomapQuiet(e.cfg, e.tx, iom, index);
    IomapKeeps(e.cfg, e.tx, s.a.link.Out(), iom, index);
    IomapCore(s, Step(s, Iomap(iom, index)).a, wrs);
  }

  lemma DirectInv(s: System, data: seq<byte>)
    requires Inv(s) && Enabled(s, Direct(data))
    ensures Inv(Step(s, Direct(data)))
  {
    hide DirInv, QueueInv;
    var e := s.a.ep;
    var (tx', wrs) := SendDirect(e.cfg, e.tx, data);
    MsgRoundTrip(OP_WRITE, |data|);
    DirectKeeps(e.cfg, e.tx, s.a.link.Out(), data);
    assert Quiet(wrs);
    QuietInv(s, Step(s, Direct(data)).a, wrs);
  }

  lemma KeepaliveInv(s: System)
    requires Inv(s) && Enabled(s, Keepalive)
    ensures Inv(Step(s, Keepalive))
  {
    hide DirInv, QueueInv;
    var (e', wrs) := SendKeepalive(s.a.ep);
    MsgRoundTrip(OP_CTRL, CTRL_KEEPALIVE);
    KeepaliveKeeps(s.a.ep, s.a.link.Out());
    assert Quiet(wrs);
    QuietInv(s, Step(s, Keepalive).a, wrs);
  }

  lemma CreditsIds(e: Endpoint)
    requires Shape(e)
    ensures var (_, wrs) := SendCredits(e); forall i :: 0 <= i < |wrs| ==> wrs[i].id != DISCONNECT_ID
  {
    MsgRoundTrip(OP_SGL, e.rx.rseqNo + e.cfg.rqSize);
    MsgRoundTrip(OP_SGL, 0);
  }

  lemma CreditsInv(s: System)
    requires Inv(s) && Enabled(s, Credits)
    ensures Inv(Step(s, Credits))
  {
    hide StreamInv, SentWithin, LimitsGiven, SpaceGiven, SpaceUsed, TargetInv, RingInv, MemInv, OffsetOk,
         FwdPipe, ArrPipe, BwdPipe, ArrLimits, QueueInv;
    var s', e := Step(s, Credits), s.a.ep;
    var (e', wrs) := SendCredits(e);
    CreditsGives(e);
    CreditsIds(e);
    CreditsKeep(e, s.a.link.Out());
    PostedOut(s.a, e', wrs);
    PostedInv(s.a, s'.a, wrs, s.b, s'.b);
    PeerInv(s.b, s'.b, s.a, s'.a);
    SndOther(e, e', s.b.ep, s.a.link, s'.a.link, wrs, s.b.link, s.a.h, s.a.h.m.closeAt);
    CreditsStep(s.b.ep, e, e', s.b.link, s.a.link, s'.a.link, wrs, s.b.h, e.rx.rbufBytesAvail >= e.cfg.Half());
  }

  /** A change of the connection state alone, or of a shutdown in progress. */
  lemma StateInv(s: System, a': Node)
    requires Inv(s)
    requires a' == s.a.(ep := s.a.ep.(st := a'.ep.st), pending := a'.pending, waiting := a'.waiting,
                        readShut := a'.readShut)
    requires CloseInv(a', s.b.h)
    ensures Inv(System(a', s.b))
  {
    assert s.a.link.inFlight == s.a.link.inFlight + [];
    SndOther(s.a.ep, a'.ep, s.b.ep, s.a.link, s.a.link, [], s.b.link, s.a.h, s.a.h.m.closeAt);
    RcvOther(s.b.ep, s.a.ep, a'.ep, s.b.link, s.a.link, s.a.link, [], s.b.h);
  }

  lemma PostCtrlClose(n: Node, peer: Hist, ctrl: nat)
    requires ctrl <= CTRL_SHUTDOWN && CloseInv(n, peer)
    requires ctrl == CTRL_DISCONNECT ==> n.readShut || peer.m.closeSeen
    ensures CloseInv(PostCtrl(n, ctrl), peer)
  {
    var (e, wrs) := SendCtrl(n.ep, ctrl);
    PostedOut(n, e, wrs);
    MsgRoundTrip(OP_CTRL, ctrl);
    MsgRoundTrip(OP_CTRL, CTRL_DISCONNECT);
  }

  lemma PostCtrlInv(s: System, ctrl: nat)
    requires Inv(s) && ctrl <= CTRL_SHUTDOWN && CtrlAvail(s.a.ep.tx)
    requires ctrl == CTRL_DISCONNECT ==> s.a.readShut || s.b.h.m.closeSeen
    ensures Inv(System(PostCtrl(s.a, ctrl), s.b))
  {
    hide SentWithin, LimitsGiven, SpaceGiven, SpaceUsed, TargetInv, RingInv, MemInv, OffsetOk, FwdPipe,
         ArrPipe, BwdPipe, ArrLimits, QueueInv;
    var a', e := PostCtrl(s.a, ctrl), s.a.ep;
    var (e', wrs) := SendCtrl(e, ctrl);
    MsgRoundTrip(OP_CTRL, ctrl);
    CtrlKeeps(e, s.a.link.Out(), ctrl);
    PostedOut(s.a, e', wrs);
    PostCtrlClose(s.a, s.b.h, ctrl);
    PeerInv(s.b, s.b, s.a, a');
    SndOther(e, e', s.b.ep, s.a.link, a'.link, wrs, s.b.link, s.a.h, a'.h.m.closeAt);
    RcvOther(s.b.ep, e, e', s.b.link, s.a.link, a'.link, wrs, s.b.h);
  }

  lemma ShutdownInv(s: System, how: How)
    requires Inv(s) && Enabled(s, Shutdown(how))
    ensures Inv(Step(s, Shutdown(how)))
  {
    var st := ShutState(s.a.ep.st, how);
    var n := s.a.(ep := s.a.ep.(st := st), readShut := s.a.readShut || how != ShutWr);
    var ctrl := ShutCtrl(st, how);
    StateInv(s, if ctrl.Some? then n.(pending := ctrl, waiting := !CtrlAvail(s.a.ep.tx)) else n);
  }

  lemma UpdatedInv(s: System)
    requires Inv(s)
    ensures Inv(Updated(s))
    ensures var a := Updated(s).a; a == s.a.(ep := a.ep, link := a.link) && a.ep.st == s.a.ep.st
    ensures Updated(s).b == s.b.(h := Updated(s).b.h) && Updated(s).b.h.m == s.b.h.m
  {
    hide DirInv, QueueInv;
    if GiveCredits(s.a.ep) {
      CreditsInv(s);
    }
  }

  lemma ResumeInv(s: System)
    requires Inv(s) && Enabled(s, Resume)
    ensures Inv(Step(s, Resume))
  {
    hide DirInv, QueueInv, Updated;
    UpdatedInv(s);
    var s1 := Updated(s);
    StateInv(s1, s1.a.(waiting := false));
  }

  lemma CloseStepInv(s: System)
    requires Inv(s) && Enabled(s, Close)
    ensures Inv(Step(s, Close))
  {
    hide DirInv, QueueInv;
    if EntryLeft(s.a.ep) {
      PostCtrlInv(s, s.a.pending.value);
    } else {
      StateInv(s, s.a.(pending := None));
    }
  }

  /** The queue invariant does not depend on credits or granted buffers. */
  lemma QueueFrame(c: Config, tx: Tx, tx': Tx, out: seq<Wr>)
    requires QueueInv(c, tx, out) && TxShape(c, tx')
    requires tx' == tx.(targetSgl := tx'.targetSgl, targetSge := tx'.targetSge, sseqNo := tx'.sseqNo,
                        sseqComp := tx'.sseqComp)
    ensures QueueInv(c, tx', out)
  {
    forall i | 0 <= i < |out|
      ensures Entry(c, tx', out, i)
    {
      assert Entry(c, tx, out, i);
    }
  }

  lemma DeliverNodes(s: System)
    requires Inv(s) && Enabled(s, Deliver)
    ensures var s' := Step(s, Deliver); NodeInv(s'.a, s'.b) && NodeInv(s'.b, s'.a)
    ensures var w := s.a.link.inFlight[0]; Fetch(s.a.ep.tx, w.src) == w.intent.intended
  {
    hide DirInv;
    var s', w := Step(s, Deliver), s.a.link.inFlight[0];
    var out := s.a.link.Out();
    assert Entry(s.a.ep.cfg, s.a.ep.tx, out, |s.a.link.acked|);
    assert s'.a.link.Out() == out;
    LandFrame(s.b.ep, w);
    QueueFrame(s.b.ep.cfg, s.b.ep.tx, s'.b.ep.tx, s.b.link.Out());
  }

  lemma DeliverInv(s: System)
    requires Inv(s) && Enabled(s, Deliver)
    ensures Inv(Step(s, Deliver))
  {
    DeliverNodes(s);
    DeliverFwd(s.a.ep, s.b.ep, s.a.link, s.b.link, s.a.h);
    DeliverBwd(s.b.ep, s.a.ep, s.b.link, s.a.link, s.b.h);
  }

  lemma CompleteNode(s: System)
    requires Inv(s) && Enabled(s, Complete)
    ensures var s' := Step(s, Complete); NodeInv(s'.a, s'.b)
  {
    hide DirInv, QueueInv;
    var s', out := Step(s, Complete), s.a.link.Out();
    CompletionKeeps(s.a.ep, out);
    assert s'.a.link.Out() == out[1..];
    assert out[0] == s.a.link.acked[0];
    MsgRoundTrip(OP_CTRL, CTRL_DISCONNECT);
  }

  lemma CompleteInv(s: System)
    requires Inv(s) && Enabled(s, Complete)
    ensures Inv(Step(s, Complete))
  {
    hide StreamInv, SentWithin, LimitsGiven, SpaceGiven, SpaceUsed, TargetInv, RingInv, MemInv, OffsetOk,
         FwdPipe, ArrPipe, BwdPipe, ArrLimits, QueueInv;
    var s' := Step(s, Complete);
    CompleteNode(s);
    assert s'.a.link.inFlight == s.a.link.inFlight + [];
    SndOther(s.a.ep, s'.a.ep, s.b.ep, s.a.link, s'.a.link, [], s.b.link, s.a.h, s.a.h.m.closeAt);
    RcvOther(s.b.ep, s.a.ep, s'.a.ep, s.b.link, s.a.link, s'.a.link, [], s.b.h);
  }

  lemma PollNodes(s: System)
    requires Inv(s) && Enabled(s, Poll)
    ensures var s' := Step(s, Poll); NodeInv(s'.a, s'.b) && NodeInv(s'.b, s'.a)
  {
    var s', msg := Step(s, Poll), s.b.link.arrived[0];
    PollMsgFields(s.a.ep, msg);
    QueueFrame(s.a.ep.cfg, s.a.ep.tx, s'.a.ep.tx, s.a.link.Out());
    assert s'.b.link.Out() == s.b.link.Out();
  }

  lemma PollInv(s: System)
    requires Inv(s) && Enabled(s, Poll)
    ensures Inv(Step(s, Poll))
  {
    PollNodes(s);
    PollFwd(s.b.ep, s.a.ep, s.b.link, s.a.link, s.b.h);
    PollBwd(s.a.ep, s.b.ep, s.a.link, s.b.link, s.a.h);
  }

  lemma RecvInv(s: System, left: nat)
    requires Inv(s) && Enabled(s, Recv(left))
    ensures Inv(Step(s, Recv(left)))
  {
    hide StreamInv, SentWithin, LimitsGiven, SpaceGiven, SpaceUsed, TargetInv, RingInv, MemInv, OffsetOk,
         FwdPipe, ArrPipe, BwdPipe, ArrLimits, QueueInv;
    var s' := Step(s, Recv(left));
    RecvStep(s.b.ep, s.a.ep, s.b.link, s.a.link, s.b.h, left);
    assert s.a.link.inFlight == s.a.link.inFlight + [];
    SndOther(s.a.ep, s'.a.ep, s.b.ep, s.a.link, s.a.link, [], s.b.link, s.a.h, s.a.h.m.closeAt);
    PeerInv(s.b, s'.b, s.a, s'.a);
  }

  /** Whatever node a does keeps the invariant. */
  lemma StepInv(s: System, act: Act)
    requires Inv(s) && Enabled(s, act)
    ensures Inv(Step(s, act))
  {
    match act
    case Send(data, vectored) => SendInv(s, data, vectored);
    case Iomap(iom, index) => IomapInv(s, iom, index);
    case Direct(data) => DirectInv(s, data);
    case Credits => CreditsInv(s);
    case Keepalive => KeepaliveInv(s);
    case Shutdown(how) => ShutdownInv(s, how);
    case Resume => ResumeInv(s);
    case Close => CloseStepInv(s);
    case Deliver => DeliverInv(s);
    case Complete => CompleteInv(s);
    case Poll => PollInv(s);
    case Recv(left) => RecvInv(s, left);
  }
}
