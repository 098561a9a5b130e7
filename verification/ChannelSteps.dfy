/** Each step of either endpoint keeps the invariant of a direction. */
module ChannelSteps {
  import opened Common
  import opened Wire
  import opened EndpointOps
  import opened Arith
  import opened Channel

  // ---- the sender sends ----

  /** What a transfer of `data` does to the fields the channel depends on. */
  ghost predicate Sends(c: Config, tx: Tx, tx': Tx, wrs: seq<Wr>, data: seq<byte>) {
    && TxShape(c, tx) && TxShape(c, tx')
    && var t := tx.targetSgl[tx.targetSge];
    && tx'.targetSgl == tx.targetSgl[tx.targetSge := Sge(t.addr + |data|, t.length - |data|)]
    && tx'.targetSge == (if t.length != |data| then tx.targetSge else 1 - tx.targetSge)
    && tx'.sseqNo == U16(tx.sseqNo + 1) && tx'.sseqComp == tx.sseqComp
    && 1 <= |wrs| <= 2
    && wrs[0].dst == PeerRbuf(t.addr) && wrs[0].intent.intended == Some(Bytes(data))
    && (forall i :: 0 <= i < |wrs| ==> NoGrant(wrs[i]))
    && wrs[|wrs| - 1].msg.Some? && IsDataMsg(wrs[|wrs| - 1].msg.value)
    && MsgData(wrs[|wrs| - 1].msg.value) == |data|
    && (|wrs| == 2 ==> wrs[0].msg == None && !wrs[1].dst.PeerRbuf?)
  }

  lemma TransferSends(c: Config, tx: Tx, data: seq<byte>, vectored: bool)
    requires TxShape(c, tx) && |data| <= c.sbufSize && |data| <= MAX_TRANSFER
    ensures var (tx', wrs) := Transfer(c, tx, data, vectored); Sends(c, tx, tx', wrs, data)
  {
    MsgRoundTrip(OP_DATA, |data|);
  }

  function MSend(m: Msgs, data: seq<byte>): Msgs {
    m.(sent := m.sent + data, lens := m.lens + [|data|])
  }

  lemma SendStream(m: Msgs, half: nat, data: seq<byte>, filled: nat)
    requires StreamInv(m, half) && half > 0 && 1 <= |data| <= MAX_TRANSFER
    requires Span(filled, half) <= |m.sent| < Span(filled, half) + half
    requires |m.sent| + |data| <= Span(filled, half) + half
    ensures StreamInv(MSend(m, data), half)
    ensures Start(m.lens + [|data|], |m.lens|) == |m.sent|
  {
    var m' := MSend(m, data);
    StartPrefix(m.lens, m'.lens, |m.lens|);
    StartPrefix(m.lens, m'.lens, m.done);
    if m.done < m.polled {
      StartPrefix(m.lens, m'.lens, m.done + 1);
    }
    forall k: nat | k < |m'.lens|
      ensures InHalf(m'.lens, half, k)
    {
      if k < |m.lens| {
        assert InHalf(m.lens, half, k);
        StartPrefix(m.lens, m'.lens, k);
      } else {
        HalfMod(|m.sent|, half, filled);
      }
    }
  }

  lemma SendRing(rqSize: nat, rx: Rx, m: Msgs, data: seq<byte>)
    requires RingInv(rqSize, rx.rmsg, rx.rmsgHead, rx.rmsgTail, m.lens, |m.recvd|, m.done, m.polled)
    ensures var m' := MSend(m, data);
      RingInv(rqSize, rx.rmsg, rx.rmsgHead, rx.rmsgTail, m'.lens, |m.recvd|, m.done, m.polled)
  {
    var m' := MSend(m, data);
    forall j: nat | j < m.polled - m.done
      ensures Queued(rx.rmsg, rx.rmsgHead, m'.lens, |m.recvd|, m.done, j)
    {
      assert Queued(rx.rmsg, rx.rmsgHead, m.lens, |m.recvd|, m.done, j);
      StartPrefix(m.lens, m'.lens, m.done + j);
    }
  }

  lemma SendMem(rbuf: seq<byte>, m: Msgs, data: seq<byte>)
    requires m.landed <= |m.lens| && MemInv(rbuf, m.sent, |m.recvd|, Start(m.lens, m.landed))
    ensures var m' := MSend(m, data); MemInv(rbuf, m'.sent, |m.recvd|, Start(m'.lens, m'.landed))
  {
    var m' := MSend(m, data);
    StartPrefix(m.lens, m'.lens, m.landed);
    forall p | |m.recvd| <= p < Start(m'.lens, m'.landed)
      ensures ByteAt(rbuf, m'.sent, p)
    {
      assert ByteAt(rbuf, m.sent, p);
    }
  }

  /** What using n bytes of the current slot leaves of the grants. */
  function GSend(g: Space, full: bool): Space {
    if full then g.(filled := g.filled + 1) else g
  }

  lemma SendSpace(sgl: seq<Sge>, sge: nat, sgl': seq<Sge>, sge': nat, half: nat, sent: nat, g: Space, sent': nat)
    requires SpaceUsed(half, sent, g) && TargetInv(sgl, sge, half, sent, g)
    requires sent < sent' <= sent + sgl[sge].length
    requires sgl' == sgl[sge := Sge(sgl[sge].addr + (sent' - sent), sgl[sge].length - (sent' - sent))]
    requires sge' == if sgl[sge].length != sent' - sent then sge else 1 - sge
    ensures sent' <= Span(g.filled, half) + half
    ensures sgl[sge].addr == HalfAt(g.filled, half) + (sent - Span(g.filled, half))
    ensures var g' := GSend(g, sgl[sge].length == sent' - sent);
      SpaceUsed(half, sent', g') && TargetInv(sgl', sge', half, sent', g')
  {
    SpanMono(g.filled + 1, g.visible, half);
  }

  /** A write and its notification, together or one behind the other. */
  lemma DataBatch(wrs: seq<Wr>, lens: seq<nat>, sent: seq<byte>, closeAt: Option<nat>, cap: nat, n: nat)
    requires |lens| == n + 1 && 1 <= |wrs| <= 2
    requires WriteOk(wrs[0], lens, sent, cap, n)
    requires var m := wrs[|wrs| - 1].msg; m.Some? && IsDataMsg(m.value) && MsgData(m.value) == lens[n]
    requires |wrs| == 2 ==> wrs[0].msg == None && !wrs[1].dst.PeerRbuf?
    ensures FwdPipe(wrs, lens, sent, closeAt, cap, n, n)
  {
    if |wrs| == 2 {
      assert wrs[1..] == [wrs[1]];
      assert FwdPipe([wrs[1]][1..], lens, sent, closeAt, cap, n + 1, n + 1);
      assert FwdPipe([wrs[1]], lens, sent, closeAt, cap, n + 1, n);
    } else {
      assert FwdPipe(wrs[1..], lens, sent, closeAt, cap, n + 1, n + 1);
    }
  }

  lemma SendPipe(q: seq<Wr>, c: Config, tx: Tx, tx': Tx, wrs: seq<Wr>, m: Msgs, cap: nat, half: nat,
                 filled: nat, data: seq<byte>)
    requires cap == 2 * half && FwdPipe(q, m.lens, m.sent, m.closeAt, cap, m.landed, m.notified)
    requires Sends(c, tx, tx', wrs, data) && half > 0
    requires tx.targetSgl[tx.targetSge].addr == HalfAt(filled, half) + (|m.sent| - Span(filled, half))
    requires Span(filled, half) <= |m.sent| < Span(filled, half) + half
    requires |m.sent| + |data| <= Span(filled, half) + half
    requires Start(m.lens + [|data|], |m.lens|) == |m.sent|
    ensures var m' := MSend(m, data);
      FwdPipe(q + wrs, m'.lens, m'.sent, m'.closeAt, cap, m'.landed, m'.notified)
  {
    var m' := MSend(m, data);
    HalfMod(|m.sent|, half, filled);
    assert m'.sent[|m.sent|..|m.sent| + |data|] == data;
    assert WriteOk(wrs[0], m'.lens, m'.sent, 2 * half, |m.lens|);
    DataBatch(wrs, m'.lens, m'.sent, m'.closeAt, 2 * half, |m.lens|);
    FwdAppend(q, wrs, m.lens, m'.lens, m.sent, m'.sent, m.closeAt, m'.closeAt, 2 * half, m.landed, m.notified);
  }

  /** A credit unequal to the limit in 16 bits is a credit below the limit. */
  lemma TakeCredit(sseqNo: u16, sseqComp: u16, sseqNo': u16, msgs: nat, msgs': nat, c: Credit, c': Credit)
    requires SentWithin(sseqNo, sseqComp, msgs, c) && sseqNo != sseqComp
    requires sseqNo' == U16(sseqNo + 1) && c' == c.(iomaps := c'.iomaps) && msgs' + c'.iomaps == msgs + c.iomaps + 1
    ensures SentWithin(sseqNo', sseqComp, msgs', c')
  {
    Low16IsMod(msgs + c.iomaps);
    Low16IsMod(msgs' + c'.iomaps);
  }

  /** The history after a transfer; it fills the current half when it uses all of it. */
  function HSend(h: Hist, data: seq<byte>, full: bool): Hist {
    Hist(MSend(h.m, data), GSend(h.g, full), h.c)
  }

  lemma SendStep(snd: Endpoint, rcv: Endpoint, fwd: Link, fwd': Link, bwd: Link, h: Hist, tx': Tx,
                 wrs: seq<Wr>, data: seq<byte>)
    requires Shape(snd) && Shape(rcv) && DirInv(snd, rcv, fwd, bwd, h) && Sends(snd.cfg, snd.tx, tx', wrs, data)
    requires snd.tx.sseqNo != snd.tx.sseqComp
    requires 1 <= |data| <= MAX_TRANSFER && |data| <= snd.tx.targetSgl[snd.tx.targetSge].length
    requires fwd'.inFlight == fwd.inFlight + wrs && fwd'.arrived == fwd.arrived
    ensures DirInv(snd.(tx := tx'), rcv, fwd', bwd,
                   HSend(h, data, snd.tx.targetSgl[snd.tx.targetSge].length == |data|))
  {
    hide LimitsGiven, SpaceGiven, TargetInv, RingInv, MemInv, OffsetOk, FwdPipe, ArrPipe, BwdPipe, ArrLimits;
    var half, m, tx, m' := rcv.cfg.Half(), h.m, snd.tx, MSend(h.m, data);
    SendSpace(tx.targetSgl, tx.targetSge, tx'.targetSgl, tx'.targetSge, half, |m.sent|, h.g, |m'.sent|);
    SendStream(m, half, data, h.g.filled);
    SendRing(rcv.cfg.rqSize, rcv.rx, m, data);
    SendMem(rcv.rx.rbuf, m, data);
    TakeCredit(tx.sseqNo, tx.sseqComp, tx'.sseqNo, |m.lens|, |m'.lens|, h.c, h.c);
    SendPipe(fwd.inFlight, snd.cfg, tx, tx', wrs, m, rcv.cfg.rbufSize, half, h.g.filled, data);
    ArrExtend(fwd.arrived, m.lens, m'.lens, m.closeAt, m.closeAt, m.polled, m.notified);
  }

  // ---- requests that carry no data of this direction ----

  ghost predicate SameFlow(tx: Tx, tx': Tx) {
    && tx'.sseqNo == tx.sseqNo && tx'.sseqComp == tx.sseqComp
    && tx'.targetSgl == tx.targetSgl && tx'.targetSge == tx.targetSge
  }

  /** Neither stream data nor its notification; a close message only once recorded. */
  ghost predicate NoData(w: Wr, n: nat, closeAt: Option<nat>) {
    && !w.dst.PeerRbuf?
    && (w.msg.Some? ==>
          && (MsgOp(w.msg.value) == OP_SGL || MsgOp(w.msg.value) == OP_IOMAP_SGL || MsgOp(w.msg.value) == OP_CTRL)
          && (IsClose(w.msg.value) ==> closeAt.Some? && closeAt.value <= n))
  }

  lemma {:induction false} NoDataPipe(wrs: seq<Wr>, lens: seq<nat>, sent: seq<byte>, closeAt: Option<nat>, cap: nat)
    requires forall i :: 0 <= i < |wrs| ==> NoData(wrs[i], |lens|, closeAt)
    ensures FwdPipe(wrs, lens, sent, closeAt, cap, |lens|, |lens|)
    decreases |wrs|
  {
    if wrs != [] {
      assert NoData(wrs[0], |lens|, closeAt);
      NoDataPipe(wrs[1..], lens, sent, closeAt, cap);
    }
  }

  /** The sender posts control or direct-write requests; `closeAt` is set when the
      first close message is among them. */
  lemma SndOther(snd: Endpoint, snd': Endpoint, rcv: Endpoint, fwd: Link, fwd': Link, wrs: seq<Wr>, bwd: Link,
                 h: Hist, closeAt: Option<nat>)
    requires Shape(snd) && Shape(rcv) && DirInv(snd, rcv, fwd, bwd, h)
    requires snd'.cfg == snd.cfg && SameFlow(snd.tx, snd'.tx)
    requires fwd'.inFlight == fwd.inFlight + wrs && fwd'.arrived == fwd.arrived
    requires closeAt == h.m.closeAt || (h.m.closeAt.None? && closeAt == Some(|h.m.lens|))
    requires forall i :: 0 <= i < |wrs| ==> NoData(wrs[i], |h.m.lens|, closeAt)
    ensures DirInv(snd', rcv, fwd', bwd, h.(m := h.m.(closeAt := closeAt)))
  {
    var m, cap := h.m, rcv.cfg.rbufSize;
    NoDataPipe(wrs, m.lens, m.sent, closeAt, cap);
    FwdAppend(fwd.inFlight, wrs, m.lens, m.lens, m.sent, m.sent, m.closeAt, closeAt, cap, m.landed, m.notified);
    ArrExtend(fwd.arrived, m.lens, m.lens, m.closeAt, closeAt, m.polled, m.notified);
  }

  /** An iomap message takes a credit but no space. */
  lemma IomapStep(snd: Endpoint, snd': Endpoint, rcv: Endpoint, fwd: Link, fwd': Link, wrs: seq<Wr>, bwd: Link, h: Hist)
    requires Shape(snd) && Shape(rcv) && DirInv(snd, rcv, fwd, bwd, h)
    requires snd'.cfg == snd.cfg && SameFlow(snd.tx, snd'.tx.(sseqNo := snd.tx.sseqNo))
    requires snd.tx.sseqNo != snd.tx.sseqComp && snd'.tx.sseqNo == U16(snd.tx.sseqNo + 1)
    requires fwd'.inFlight == fwd.inFlight + wrs && fwd'.arrived == fwd.arrived
    requires forall i :: 0 <= i < |wrs| ==> NoData(wrs[i], |h.m.lens|, h.m.closeAt)
    ensures DirInv(snd', rcv, fwd', bwd, h.(c := h.c.(iomaps := h.c.iomaps + 1)))
  {
    var m, cap := h.m, rcv.cfg.rbufSize;
    NoDataPipe(wrs, m.lens, m.sent, m.closeAt, cap);
    FwdAppend(fwd.inFlight, wrs, m.lens, m.lens, m.sent, m.sent, m.closeAt, m.closeAt, cap, m.landed, m.notified);
    TakeCredit(snd.tx.sseqNo, snd.tx.sseqComp, snd'.tx.sseqNo, |m.lens|, |m.lens|, h.c, h.c.(iomaps := h.c.iomaps + 1));
  }

  // ---- the receiver posts ----

  ghost predicate NoGrant(w: Wr) {
    !w.dst.PeerSgl? && !(w.msg.Some? && IsLimitMsg(w.msg.value))
  }

  lemma {:induction false} NoGrantPipe(wrs: seq<Wr>, grants: nat, limits: seq<nat>, half: nat)
    requires forall i :: 0 <= i < |wrs| ==> NoGrant(wrs[i])
    ensures BwdPipe(wrs, grants, limits, half, grants, |limits|)
    decreases |wrs|
  {
    if wrs != [] {
      assert NoGrant(wrs[0]);
      NoGrantPipe(wrs[1..], grants, limits, half);
    }
  }

  /** The receiver posts requests that concern only the other direction. */
  lemma RcvOther(snd: Endpoint, rcv: Endpoint, rcv': Endpoint, fwd: Link, bwd: Link, bwd': Link, wrs: seq<Wr>, h: Hist)
    requires Shape(snd) && Shape(rcv) && DirInv(snd, rcv, fwd, bwd, h)
    requires rcv'.cfg == rcv.cfg && rcv'.rx == rcv.rx
    requires bwd'.inFlight == bwd.inFlight + wrs && bwd'.arrived == bwd.arrived
    requires forall i :: 0 <= i < |wrs| ==> NoGrant(wrs[i])
    ensures DirInv(snd, rcv', fwd, bwd', h)
  {
    var half := rcv.cfg.Half();
    NoGrantPipe(wrs, h.g.granted, h.c.limits, half);
    BwdAppend(bwd.inFlight, wrs, h.g.granted, h.g.granted, h.c.limits, h.c.limits, half, h.g.visible, h.c.announced);
  }

  /** What giving credits does to the receiving half. */
  ghost predicate GivesRx(c: Config, rx: Rx, rx': Rx, granted: bool) {
    && granted == (rx.rbufBytesAvail >= c.Half())
    && rx'.rseqNo == rx.rseqNo && rx'.rseqComp == U16(rx.rseqNo + c.rqSize / 2)
    && rx'.rbufOffset == rx.rbufOffset && rx'.rbuf == rx.rbuf
    && rx'.rmsg == rx.rmsg && rx'.rmsgHead == rx.rmsgHead && rx'.rmsgTail == rx.rmsgTail
    && (!granted ==> rx'.rbufBytesAvail == rx.rbufBytesAvail && rx'.rbufFreeOffset == rx.rbufFreeOffset
                     && rx'.remoteSge == rx.remoteSge)
    && (granted ==>
          && rx'.rbufBytesAvail == rx.rbufBytesAvail - c.Half()
          && rx'.rbufFreeOffset
             == (if rx.rbufFreeOffset + c.Half() >= c.rbufSize then 0 else rx.rbufFreeOffset + c.Half())
          && rx'.remoteSge == (if rx.remoteSge + 1 == SGL_SIZE then 0 else rx.remoteSge + 1))
  }

  /** What giving credits posts: a limit message, with a grant when one is free. */
  ghost predicate Gives(c: Config, rx: Rx, wrs: seq<Wr>, granted: bool) {
    && 1 <= |wrs| <= 2 && c.rqSize <= QP_MAX_SIZE
    && (forall i :: 0 <= i < |wrs| ==> NoData(wrs[i], 0, None))
    && wrs[|wrs| - 1].msg.Some? && wrs[|wrs| - 1].msg.value == MsgSet(OP_SGL, rx.rseqNo + c.rqSize)
    && wrs[0].dst == (if granted then PeerSgl(rx.remoteSge) else NoTarget)
    && (granted ==> wrs[0].intent.intended == Some(SgeVal(Sge(rx.rbufFreeOffset, c.Half()))))
    && (|wrs| == 2 ==> granted && wrs[0].msg == None && wrs[1].dst == NoTarget)
  }

  lemma CreditsGives(e: Endpoint)
    requires Shape(e)
    ensures var (e', wrs) := SendCredits(e);
      && Gives(e.cfg, e.rx, wrs, e.rx.rbufBytesAvail >= e.cfg.Half())
      && GivesRx(e.cfg, e.rx, e'.rx, e.rx.rbufBytesAvail >= e.cfg.Half())
      && e'.cfg == e.cfg && Shape(e') && SameFlow(e.tx, e'.tx) && e'.st == e.st
  {
    MsgRoundTrip(OP_SGL, e.rx.rseqNo + e.cfg.rqSize);
  }

  lemma GiveLimit(rseqNo: u16, rseqComp: u16, rseqComp': u16, rqSize: nat, done: nat, limits: seq<nat>)
    requires LimitsGiven(rseqNo, rseqComp, rqSize, done, limits) && rseqComp' == U16(rseqNo + rqSize / 2)
    ensures LimitsGiven(rseqNo, rseqComp', rqSize, done, limits + [done + rqSize])
  {
    var limits' := limits + [done + rqSize];
    Low16IsMod(done);
    Low16IsMod(done + rqSize / 2);
    forall i | 0 <= i < |limits'|
      ensures Rising(limits', i)
    {
      if i < |limits| {
        assert Rising(limits, i);
      }
    }
  }

  /** A half granted, when one is free. */
  function GGrant(g: Space, granted: bool): Space {
    if granted then g.(granted := g.granted + 1) else g
  }

  /** With a half free the receiver has not granted two halves ahead of the sender. */
  lemma GrantRoom(half: nat, g: Space, recvd: nat, sent: nat)
    requires SpaceUsed(half, sent, g) && recvd <= sent
    requires 2 * half + recvd - Span(g.granted, half) >= half
    ensures SpaceUsed(half, sent, g.(granted := g.granted + 1))
  {
    assert Span(g.filled + 2, half) == Span(g.filled + 1, half) + half;
  }

  /** Free offset and slot alternate. */
  lemma NextHalf(granted: nat, half: nat, freeOffset: nat, remoteSge: nat)
    requires half > 0 && freeOffset == HalfAt(granted, half) && remoteSge == Slot(granted)
    ensures (if freeOffset + half >= 2 * half then 0 else freeOffset + half) == HalfAt(granted + 1, half)
    ensures (if remoteSge + 1 == SGL_SIZE then 0 else remoteSge + 1) == Slot(granted + 1)
    ensures Span(granted + 1, half) == Span(granted, half) + half
  {
  }

  lemma GiveSpace(c: Config, rx: Rx, rx': Rx, granted: bool, recvd: nat, sent: nat, g: Space)
    requires ValidConfig(c) && GivesRx(c, rx, rx', granted) && recvd <= sent
    requires SpaceGiven(rx.rbufBytesAvail, rx.rbufFreeOffset, rx.remoteSge, c.Half(), recvd, g.granted)
    requires SpaceUsed(c.Half(), sent, g)
    ensures var g' := GGrant(g, granted);
      && SpaceGiven(rx'.rbufBytesAvail, rx'.rbufFreeOffset, rx'.remoteSge, c.Half(), recvd, g'.granted)
      && SpaceUsed(c.Half(), sent, g')
  {
    if granted {
      GrantRoom(c.Half(), g, recvd, sent);
      NextHalf(g.granted, c.Half(), rx.rbufFreeOffset, rx.remoteSge);
      assert c.rbufSize == 2 * c.Half();
    }
  }

  /** Grants of free space do not change what the sender sees. */
  lemma SameTarget(sgl: seq<Sge>, sge: nat, half: nat, sent: nat, g: Space, g': Space)
    requires TargetInv(sgl, sge, half, sent, g) && g'.filled == g.filled && g'.visible == g.visible
    ensures TargetInv(sgl, sge, half, sent, g')
  {
  }

  lemma LimitMsg(rseqNo: u16, rqSize: nat, limits: seq<nat>, done: nat)
    requires 1 <= rqSize <= QP_MAX_SIZE && rseqNo == Low16(done)
    ensures var msg := MsgSet(OP_SGL, rseqNo + rqSize);
      IsLimitMsg(msg) && LimitOk(msg, limits + [done + rqSize], |limits|)
  {
    MsgRoundTrip(OP_SGL, rseqNo + rqSize);
    Low16IsMod(done);
    Low16IsMod(done + rqSize);
  }

  lemma CreditsPipe(c: Config, rx: Rx, wrs: seq<Wr>, granted: bool, g: Space, limits: seq<nat>, done: nat)
    requires Gives(c, rx, wrs, granted) && 1 <= c.rqSize <= QP_MAX_SIZE
    requires rx.remoteSge == Slot(g.granted) && rx.rbufFreeOffset == HalfAt(g.granted, c.Half())
    requires rx.rseqNo == Low16(done)
    ensures BwdPipe(wrs, GGrant(g, granted).granted, limits + [done + c.rqSize], c.Half(), g.granted, |limits|)
  {
    var grants', limits', half := GGrant(g, granted).granted, limits + [done + c.rqSize], c.Half();
    LimitMsg(rx.rseqNo, c.rqSize, limits, done);
    if |wrs| == 2 {
      assert wrs[1..] == [wrs[1]];
      assert BwdPipe([wrs[1]][1..], grants', limits', half, grants', |limits'|);
      assert BwdPipe([wrs[1]], grants', limits', half, grants', |limits|);
    } else {
      assert BwdPipe(wrs[1..], grants', limits', half, grants', |limits'|);
    }
  }

  /** Credits given, and a half granted when one is free. */
  function HCredits(h: Hist, rqSize: nat, granted: bool): Hist {
    Hist(h.m, GGrant(h.g, granted), h.c.(limits := h.c.limits + [h.m.done + rqSize]))
  }

  lemma SameSent(sseqNo: u16, sseqComp: u16, msgs: nat, c: Credit, limit: nat)
    requires SentWithin(sseqNo, sseqComp, msgs, c)
    ensures SentWithin(sseqNo, sseqComp, msgs, c.(limits := c.limits + [limit]))
  {
  }

  lemma CreditsStep(snd: Endpoint, rcv: Endpoint, rcv': Endpoint, fwd: Link, bwd: Link, bwd': Link,
                    wrs: seq<Wr>, h: Hist, granted: bool)
    requires Shape(snd) && Shape(rcv) && DirInv(snd, rcv, fwd, bwd, h) && Gives(rcv.cfg, rcv.rx, wrs, granted)
    requires rcv'.cfg == rcv.cfg && GivesRx(rcv.cfg, rcv.rx, rcv'.rx, granted)
    requires bwd'.inFlight == bwd.inFlight + wrs && bwd'.arrived == bwd.arrived
    ensures DirInv(snd, rcv', fwd, bwd', HCredits(h, rcv.cfg.rqSize, granted))
  {
    hide SentWithin, SpaceUsed, TargetInv, RingInv, MemInv, OffsetOk, FwdPipe, ArrPipe, BwdPipe, ArrLimits;
    var half, rx, m, tx := rcv.cfg.Half(), rcv.rx, h.m, snd.tx;
    var h' := HCredits(h, rcv.cfg.rqSize, granted);
    SameSent(tx.sseqNo, tx.sseqComp, |m.lens|, h.c, m.done + rcv.cfg.rqSize);
    GiveLimit(rx.rseqNo, rx.rseqComp, rcv'.rx.rseqComp, rcv.cfg.rqSize, m.done, h.c.limits);
    GiveSpace(rcv.cfg, rx, rcv'.rx, granted, |m.recvd|, |m.sent|, h.g);
    SameTarget(tx.targetSgl, tx.targetSge, half, |m.sent|, h.g, h'.g);
    CreditsPipe(rcv.cfg, rx, wrs, granted, h.g, h.c.limits, m.done);
    BwdAppend(bwd.inFlight, wrs, h.g.granted, h'.g.granted, h.c.limits, h'.c.limits, half, h.g.visible, h.c.announced);
    LimitsExtend(bwd.arrived, h.c.limits, h'.c.limits, h.c.seen, h.c.announced);
  }

  // ---- the adapter executes the oldest request ----

  /** The link after the oldest request of its sender is executed. */
  function Executed(l: Link): Link
    requires l.inFlight != []
  {
    var w := l.inFlight[0];
    Link(l.inFlight[1..], l.acked + [w], if w.msg.Some? then l.arrived + [w.msg.value] else l.arrived)
  }

  function HLanded(h: Hist, w: Wr): Hist {
    h.(m := h.m.(landed := if w.dst.PeerRbuf? then h.m.landed + 1 else h.m.landed,
                 notified := if w.msg.Some? && IsDataMsg(w.msg.value) then h.m.notified + 1 else h.m.notified))
  }

  function HAnnounced(h: Hist, w: Wr): Hist {
    h.(g := if w.dst.PeerSgl? then h.g.(visible := h.g.visible + 1) else h.g,
       c := if w.msg.Some? && IsLimitMsg(w.msg.value) then h.c.(announced := h.c.announced + 1) else h.c)
  }

  lemma FwdExecuted(fwd: Link, cap: nat, h: Hist)
    requires fwd.inFlight != [] && h.m.notified <= h.m.landed <= |h.m.lens|
    requires FwdPipe(fwd.inFlight, h.m.lens, h.m.sent, h.m.closeAt, cap, h.m.landed, h.m.notified)
    requires ArrPipe(fwd.arrived, h.m.lens, h.m.closeAt, h.m.polled, h.m.notified)
    ensures var w := fwd.inFlight[0]; var m' := HLanded(h, w).m;
      && FwdPipe(Executed(fwd).inFlight, m'.lens, m'.sent, m'.closeAt, cap, m'.landed, m'.notified)
      && ArrPipe(Executed(fwd).arrived, m'.lens, m'.closeAt, m'.polled, m'.notified)
      && m'.notified <= m'.landed <= |m'.lens|
      && (w.dst.PeerRbuf? ==> WriteOk(w, h.m.lens, h.m.sent, cap, h.m.landed))
  {
    var w := fwd.inFlight[0];
    if w.msg.Some? {
      ArrAppend(fwd.arrived, w.msg.value, h.m.lens, h.m.closeAt, h.m.polled, h.m.notified);
    }
  }

  /** Sent but unread bytes fit the receive buffer. */
  lemma SentWindow(avail: int, freeOffset: nat, remoteSge: nat, half: nat, recvd: nat, sent: nat, g: Space)
    requires SpaceGiven(avail, freeOffset, remoteSge, half, recvd, g.granted) && SpaceUsed(half, sent, g)
    ensures sent <= recvd + 2 * half
  {
    SpanMono(g.visible, g.granted, half);
  }

  /** s' is s with bytes a..a+n of `sent` written from `at` on. */
  ghost predicate Written(s: seq<byte>, s': seq<byte>, at: nat, sent: seq<byte>, a: nat, n: nat)
    requires a + n <= |sent|
  {
    && at + n <= |s| == |s'|
    && forall i :: 0 <= i < |s| ==> s'[i] == if at <= i < at + n then sent[a + (i - at)] else s[i]
  }

  lemma SpliceWritten(s: seq<byte>, at: nat, sent: seq<byte>, a: nat, n: nat)
    requires a + n <= |sent| && at + n <= |s|
    ensures Written(s, Splice(s, at, sent[a..a + n]), at, sent, a, n)
  {
  }

  /** Writing bytes a..a+n of the stream in place covers no unread byte before them. */
  lemma LandByte(rbuf: seq<byte>, rbuf': seq<byte>, sent: seq<byte>, a: nat, n: nat, p: nat)
    requires |rbuf| > 0 && a + n <= |sent| && Written(rbuf, rbuf', RingAt(|rbuf|, a), sent, a, n)
    requires p < a + n <= p + |rbuf|
    requires p < a ==> ByteAt(rbuf, sent, p)
    ensures ByteAt(rbuf', sent, p)
  {
    var cap := |rbuf|;
    var at, i := RingAt(cap, a), RingAt(cap, p);
    if p >= a {
      AtStep(a, cap, p - a);
    } else if at <= i < at + n {
      AtStep(a, cap, i - at);
      AtApart(p, a + (i - at), cap);
    }
  }

  lemma LandMem(rbuf: seq<byte>, rbuf': seq<byte>, m: Msgs, a: nat, n: nat)
    requires |rbuf| > 0 && a + n <= |m.sent| <= |m.recvd| + |rbuf|
    requires MemInv(rbuf, m.sent, |m.recvd|, a) && Written(rbuf, rbuf', RingAt(|rbuf|, a), m.sent, a, n)
    ensures MemInv(rbuf', m.sent, |m.recvd|, a + n)
  {
    forall p | |m.recvd| <= p < a + n
      ensures ByteAt(rbuf', m.sent, p)
    {
      LandByte(rbuf, rbuf', m.sent, a, n, p);
    }
  }

  /** Executing any request keeps the shape of the peer and what it does not touch. */
  lemma LandFrame(e: Endpoint, w: Wr)
    requires Shape(e)
    ensures var e' := Land(e, w.dst, w.intent.intended);
      && Shape(e') && e'.cfg == e.cfg && e'.st == e.st
      && (!w.dst.PeerRbuf? ==> e'.rx == e.rx)
      && (!w.dst.PeerSgl? ==> e'.tx == e.tx)
      && e'.rx == e.rx.(rbuf := e'.rx.rbuf)
      && e'.tx == e.tx.(targetSgl := e'.tx.targetSgl)
  {
  }

  lemma LandedMem(rcv: Endpoint, m: Msgs, w: Wr)
    requires Shape(rcv) && m.landed <= |m.lens| && |m.sent| <= |m.recvd| + rcv.cfg.rbufSize
    requires MemInv(rcv.rx.rbuf, m.sent, |m.recvd|, Start(m.lens, m.landed))
    requires w.dst.PeerRbuf? ==> WriteOk(w, m.lens, m.sent, rcv.cfg.rbufSize, m.landed)
    ensures var k := if w.dst.PeerRbuf? then m.landed + 1 else m.landed;
      k <= |m.lens| && MemInv(Land(rcv, w.dst, w.intent.intended).rx.rbuf, m.sent, |m.recvd|, Start(m.lens, k))
  {
    if w.dst.PeerRbuf? {
      var a, n := Start(m.lens, m.landed), m.lens[m.landed];
      SpliceWritten(rcv.rx.rbuf, RingAt(rcv.cfg.rbufSize, a), m.sent, a, n);
      LandMem(rcv.rx.rbuf, Land(rcv, w.dst, w.intent.intended).rx.rbuf, m, a, n);
    } else {
      LandFrame(rcv, w);
    }
  }

  lemma DeliverFwdCore(snd: Endpoint, rcv: Endpoint, rcv': Endpoint, fwd: Link, fwd': Link, bwd: Link, h: Hist,
                       m': Msgs)
    requires DirInv(snd, rcv, fwd, bwd, h)
    requires rcv'.cfg == rcv.cfg && rcv'.rx == rcv.rx.(rbuf := rcv'.rx.rbuf)
    requires m' == h.m.(landed := m'.landed, notified := m'.notified)
    requires h.m.notified <= m'.notified <= m'.landed <= |m'.lens|
    requires MemInv(rcv'.rx.rbuf, m'.sent, |m'.recvd|, Start(m'.lens, m'.landed))
    requires FwdPipe(fwd'.inFlight, m'.lens, m'.sent, m'.closeAt, rcv.cfg.rbufSize, m'.landed, m'.notified)
    requires ArrPipe(fwd'.arrived, m'.lens, m'.closeAt, m'.polled, m'.notified)
    ensures DirInv(snd, rcv', fwd', bwd, h.(m := m'))
  {
  }

  /** A request of the sender lands at the receiver. */
  lemma DeliverFwd(snd: Endpoint, rcv: Endpoint, fwd: Link, bwd: Link, h: Hist)
    requires Shape(snd) && Shape(rcv) && DirInv(snd, rcv, fwd, bwd, h) && fwd.inFlight != []
    ensures var w := fwd.inFlight[0];
      DirInv(snd, Land(rcv, w.dst, w.intent.intended), Executed(fwd), bwd, HLanded(h, w))
  {
    hide SentWithin, LimitsGiven, SpaceGiven, SpaceUsed, TargetInv, RingInv, MemInv, OffsetOk, FwdPipe,
         ArrPipe, BwdPipe, ArrLimits;
    var w, rx := fwd.inFlight[0], rcv.rx;
    SentWindow(rx.rbufBytesAvail, rx.rbufFreeOffset, rx.remoteSge, rcv.cfg.Half(), |h.m.recvd|, |h.m.sent|, h.g);
    FwdExecuted(fwd, rcv.cfg.rbufSize, h);
    LandedMem(rcv, h.m, w);
    LandFrame(rcv, w);
    DeliverFwdCore(snd, rcv, Land(rcv, w.dst, w.intent.intended), fwd, Executed(fwd), bwd, h, HLanded(h, w).m);
  }

  lemma BwdExecuted(bwd: Link, half: nat, h: Hist)
    requires bwd.inFlight != [] && h.c.announced <= |h.c.limits|
    requires BwdPipe(bwd.inFlight, h.g.granted, h.c.limits, half, h.g.visible, h.c.announced)
    requires ArrLimits(bwd.arrived, h.c.limits, h.c.seen, h.c.announced)
    ensures var w := bwd.inFlight[0]; var h' := HAnnounced(h, w);
      && BwdPipe(Executed(bwd).inFlight, h'.g.granted, h'.c.limits, half, h'.g.visible, h'.c.announced)
      && ArrLimits(Executed(bwd).arrived, h'.c.limits, h'.c.seen, h'.c.announced)
      && (w.dst.PeerSgl? ==> GrantOk(w, h.g.granted, half, h.g.visible))
      && h'.c.announced <= |h.c.limits|
  {
    var w := bwd.inFlight[0];
    if w.msg.Some? {
      LimitsAppend(bwd.arrived, w.msg.value, h.c.limits, h.c.seen, h.c.announced);
    }
  }

  /** A grant becomes visible in the slot whose previous grant is used up. */
  lemma GrantVisible(sgl: seq<Sge>, sge: nat, half: nat, sent: nat, g: Space)
    requires SpaceUsed(half, sent, g) && TargetInv(sgl, sge, half, sent, g) && g.visible < g.granted
    ensures sgl[Slot(g.visible)].length == 0
    ensures var g' := g.(visible := g.visible + 1);
      && SpaceUsed(half, sent, g')
      && TargetInv(sgl[Slot(g.visible) := Sge(HalfAt(g.visible, half), half)], sge, half, sent, g')
  {
    SpanMono(g.visible, g.visible + 1, half);
  }

  lemma LandedGrant(snd: Endpoint, half: nat, sent: nat, g: Space, w: Wr)
    requires Shape(snd) && SpaceUsed(half, sent, g) && TargetInv(snd.tx.targetSgl, snd.tx.targetSge, half, sent, g)
    requires w.dst.PeerSgl? ==> GrantOk(w, g.granted, half, g.visible)
    ensures var g' := if w.dst.PeerSgl? then g.(visible := g.visible + 1) else g;
      && SpaceUsed(half, sent, g')
      && TargetInv(Land(snd, w.dst, w.intent.intended).tx.targetSgl, snd.tx.targetSge, half, sent, g')
  {
    if w.dst.PeerSgl? {
      GrantVisible(snd.tx.targetSgl, snd.tx.targetSge, half, sent, g);
    } else {
      LandFrame(snd, w);
    }
  }

  lemma DeliverBwdCore(snd: Endpoint, snd': Endpoint, rcv: Endpoint, fwd: Link, bwd: Link, bwd': Link, h: Hist,
                       g': Space, c': Credit)
    requires DirInv(snd, rcv, fwd, bwd, h)
    requires snd'.tx == snd.tx.(targetSgl := snd'.tx.targetSgl)
    requires g' == h.g.(visible := g'.visible) && c' == h.c.(announced := c'.announced)
    requires h.c.announced <= c'.announced <= |c'.limits|
    requires SpaceUsed(rcv.cfg.Half(), |h.m.sent|, g')
    requires TargetInv(snd'.tx.targetSgl, snd'.tx.targetSge, rcv.cfg.Half(), |h.m.sent|, g')
    requires BwdPipe(bwd'.inFlight, g'.granted, c'.limits, rcv.cfg.Half(), g'.visible, c'.announced)
    requires ArrLimits(bwd'.arrived, c'.limits, c'.seen, c'.announced)
    ensures DirInv(snd', rcv, fwd, bwd', Hist(h.m, g', c'))
  {
  }

  /** A request of the receiver lands at the sender. */
  lemma DeliverBwd(snd: Endpoint, rcv: Endpoint, fwd: Link, bwd: Link, h: Hist)
    requires Shape(snd) && Shape(rcv) && DirInv(snd, rcv, fwd, bwd, h) && bwd.inFlight != []
    ensures var w := bwd.inFlight[0];
      DirInv(Land(snd, w.dst, w.intent.intended), rcv, fwd, Executed(bwd), HAnnounced(h, w))
  {
    hide StreamInv, LimitsGiven, SpaceGiven, SpaceUsed, TargetInv, RingInv, MemInv, OffsetOk, FwdPipe, ArrPipe,
         BwdPipe, ArrLimits;
    var w := bwd.inFlight[0];
    var h' := HAnnounced(h, w);
    LandFrame(snd, w);
    BwdExecuted(bwd, rcv.cfg.Half(), h);
    LandedGrant(snd, rcv.cfg.Half(), |h.m.sent|, h.g, w);
    DeliverBwdCore(snd, Land(snd, w.dst, w.intent.intended), rcv, fwd, bwd, Executed(bwd), h, h'.g, h'.c);
  }

  // ---- an endpoint polls its completion queue ----

  /** The link after the peer polls the oldest notification. */
  function Polled(l: Link): Link
    requires l.arrived != []
  {
    l.(arrived := l.arrived[1..])
  }

  function HPolled(h: Hist, msg: nat): Hist {
    h.(m := h.m.(polled := if IsDataMsg(msg) then h.m.polled + 1 else h.m.polled,
                 closeSeen := h.m.closeSeen || IsClose(msg)))
  }

  function HSeen(h: Hist, msg: nat): Hist {
    h.(c := if IsLimitMsg(msg) then h.c.(seen := h.c.seen + 1) else h.c)
  }

  /** At most rq_size messages are sent beyond those fully read. */
  lemma RoomToPoll(sseqNo: u16, sseqComp: u16, msgs: nat, c: Credit, rseqNo: u16, rseqComp: u16, rqSize: nat, done: nat)
    requires SentWithin(sseqNo, sseqComp, msgs, c) && LimitsGiven(rseqNo, rseqComp, rqSize, done, c.limits)
    ensures msgs + c.iomaps <= done + rqSize
  {
    assert Rising(c.limits, c.seen - 1);
  }

  lemma PollRing(rqSize: nat, rmsg: seq<Rmsg>, head: nat, tail: nat, m: Msgs)
    requires RingInv(rqSize, rmsg, head, tail, m.lens, |m.recvd|, m.done, m.polled)
    requires m.polled < |m.lens| <= m.done + rqSize
    requires m.done == m.polled ==> |m.recvd| == Start(m.lens, m.done)
    ensures 0 <= tail <= rqSize
    ensures RingInv(rqSize, rmsg[tail := Rmsg(OP_DATA, m.lens[m.polled])], head,
                    if tail + 1 == rqSize + 1 then 0 else tail + 1, m.lens, |m.recvd|, m.done, m.polled + 1)
  {
    var rmsg' := rmsg[tail := Rmsg(OP_DATA, m.lens[m.polled])];
    forall j: nat | j < m.polled + 1 - m.done
      ensures Queued(rmsg', head, m.lens, |m.recvd|, m.done, j)
    {
      if j < m.polled - m.done {
        assert Queued(rmsg, head, m.lens, |m.recvd|, m.done, j);
      }
    }
  }

  lemma PollStream(h: Hist, half: nat, msg: nat)
    requires StreamInv(h.m, half) && MsgOk(msg, h.m.lens, h.m.closeAt, h.m.polled, h.m.notified)
    ensures StreamInv(HPolled(h, msg).m, half)
  {
  }

  /** What polling does to the fields each direction depends on. */
  lemma PollMsgFields(e: Endpoint, msg: nat)
    requires Shape(e)
    ensures var e' := PollMsg(e, msg);
      && e'.cfg == e.cfg
      && e'.tx == e.tx.(sseqComp := if IsLimitMsg(msg) then U16(MsgData(msg)) else e.tx.sseqComp)
      && e'.rx == e.rx.(rmsg := e'.rx.rmsg, rmsgTail := e'.rx.rmsgTail)
  {
  }

  lemma PolledRing(rcv: Endpoint, m: Msgs, msg: nat)
    requires Shape(rcv) && MsgOk(msg, m.lens, m.closeAt, m.polled, m.notified)
    requires RingInv(rcv.cfg.rqSize, rcv.rx.rmsg, rcv.rx.rmsgHead, rcv.rx.rmsgTail, m.lens, |m.recvd|, m.done, m.polled)
    requires |m.lens| <= m.done + rcv.cfg.rqSize
    requires m.done == m.polled ==> |m.recvd| == Start(m.lens, m.done)
    ensures var rx' := PollMsg(rcv, msg).rx;
      RingInv(rcv.cfg.rqSize, rx'.rmsg, rx'.rmsgHead, rx'.rmsgTail, m.lens, |m.recvd|, m.done,
              if IsDataMsg(msg) then m.polled + 1 else m.polled)
  {
    if IsDataMsg(msg) {
      PollRing(rcv.cfg.rqSize, rcv.rx.rmsg, rcv.rx.rmsgHead, rcv.rx.rmsgTail, m);
    }
  }

  /** The receiver polls a notification of the sender. */
  lemma PollFwd(snd: Endpoint, rcv: Endpoint, fwd: Link, bwd: Link, h: Hist)
    requires Shape(snd) && Shape(rcv) && DirInv(snd, rcv, fwd, bwd, h) && fwd.arrived != []
    ensures var msg := fwd.arrived[0];
      DirInv(snd, PollMsg(rcv, msg), Polled(fwd), bwd, HPolled(h, msg))
  {
    var msg := fwd.arrived[0];
    RoomToPoll(snd.tx.sseqNo, snd.tx.sseqComp, |h.m.lens|, h.c, rcv.rx.rseqNo, rcv.rx.rseqComp, rcv.cfg.rqSize,
               h.m.done);
    PollStream(h, rcv.cfg.Half(), msg);
    PolledRing(rcv, h.m, msg);
    PollMsgFields(rcv, msg);
  }

  /** A limit message moves the limit forward, never back. */
  lemma LimitSeen(sseqNo: u16, sseqComp: u16, msgs: nat, c: Credit, msg: nat)
    requires SentWithin(sseqNo, sseqComp, msgs, c)
    requires forall i :: 0 <= i < |c.limits| ==> Rising(c.limits, i)
    requires IsLimitMsg(msg) ==> LimitOk(msg, c.limits, c.seen) && c.seen < c.announced
    ensures SentWithin(sseqNo, if IsLimitMsg(msg) then U16(MsgData(msg)) else sseqComp, msgs,
                       if IsLimitMsg(msg) then c.(seen := c.seen + 1) else c)
  {
    assert Rising(c.limits, c.seen - 1);
  }

  /** The sender polls a notification of the receiver. */
  lemma PollBwd(snd: Endpoint, rcv: Endpoint, fwd: Link, bwd: Link, h: Hist)
    requires Shape(snd) && Shape(rcv) && DirInv(snd, rcv, fwd, bwd, h) && bwd.arrived != []
    ensures var msg := bwd.arrived[0];
      DirInv(PollMsg(snd, msg), rcv, fwd, Polled(bwd), HSeen(h, msg))
  {
    var msg := bwd.arrived[0];
    LimitSeen(snd.tx.sseqNo, snd.tx.sseqComp, |h.m.lens|, h.c, msg);
    PollMsgFields(snd, msg);
  }

  // ---- the receiver reads ----

  function MRecv(m: Msgs, out: seq<byte>, whole: bool): Msgs {
    m.(recvd := m.recvd + out, done := if whole then m.done + 1 else m.done)
  }

  /** n bytes in place that do not straddle the end of the ring are read in one piece. */
  lemma {:induction false} ReadInPlace(rbuf: seq<byte>, sent: seq<byte>, c: nat, n: nat)
    requires |rbuf| > 0 && c + n <= |sent| && RingAt(|rbuf|, c) + n <= |rbuf|
    requires forall p :: c <= p < c + n ==> ByteAt(rbuf, sent, p)
    ensures rbuf[RingAt(|rbuf|, c)..RingAt(|rbuf|, c) + n] == sent[c..c + n]
  {
    if n > 0 {
      ReadInPlace(rbuf, sent, c, n - 1);
      AtStep(c, |rbuf|, n - 1);
      assert ByteAt(rbuf, sent, c + n - 1);
      var at := RingAt(|rbuf|, c);
      assert rbuf[at..at + n] == rbuf[at..at + n - 1] + [rbuf[at + n - 1]];
      assert sent[c..c + n] == sent[c..c + n - 1] + [sent[c + n - 1]];
    }
  }

  /** A position inside a message that lies in one half leaves room for the rest
      of the message before the end of the buffer. */
  lemma RestFits(half: nat, a: nat, n: nat, c: nat)
    requires half > 0 && RingAt(half, a) + n <= half && a <= c < a + n
    ensures RingAt(2 * half, c) + (a + n - c) <= 2 * half
  {
    var q := HalfOf(a, half);
    HalfMod(a, half, q);
    HalfMod(c, half, q);
  }

  lemma OffsetNext(cap: nat, pos: nat, n: nat)
    requires cap > 0 && RingAt(cap, pos) + n <= cap && n >= 1
    ensures OffsetOk(RingAt(cap, pos) + n, cap, pos + n)
  {
    if RingAt(cap, pos) + n < cap {
      AtStep(pos, cap, n);
    } else {
      AtWrap(pos, cap, n);
    }
  }

  /** Where the next n bytes of the stream lie when they do not straddle the end:
      the offset is there, or at the end in place of the start. */
  lemma NextBytes(rbuf: seq<byte>, offset: nat, sent: seq<byte>, pos: nat, n: nat) returns (at: nat)
    requires |rbuf| > 0 && OffsetOk(offset, |rbuf|, pos)
    requires n >= 1 && pos + n <= |sent| && RingAt(|rbuf|, pos) + n <= |rbuf|
    requires forall p :: pos <= p < pos + n ==> ByteAt(rbuf, sent, p)
    ensures at + n <= |rbuf| && rbuf[at..at + n] == sent[pos..pos + n]
    ensures offset == at || (offset == |rbuf| && at == 0)
    ensures OffsetOk(at + n, |rbuf|, pos + n)
  {
    at := RingAt(|rbuf|, pos);
    ReadInPlace(rbuf, sent, pos, n);
    OffsetNext(|rbuf|, pos, n);
  }

  /** The copy loop reads those n bytes; its wrap branch is only ever taken with
      nothing left before the end of the buffer. */
  lemma ChunkOfRing(rbuf: seq<byte>, offset: nat, at: nat, n: nat)
    requires n >= 1 && at + n <= |rbuf| && (offset == at || (offset == |rbuf| && at == 0))
    ensures n > |rbuf| - offset ==> offset == |rbuf|
    ensures var end := |rbuf| - offset;
      && (if n > end then rbuf[offset..] + rbuf[..n - end] else rbuf[offset..offset + n]) == rbuf[at..at + n]
      && (if n > end then n - end else offset + n) == at + n
  {
  }

  /** The unread rest of the message at the head, and where it lies. */
  lemma HeadMessage(c: Config, rx: Rx, m: Msgs)
    requires ValidConfig(c) && RxShape(c, rx) && StreamInv(m, c.Half()) && m.done < m.polled
    requires RingInv(c.rqSize, rx.rmsg, rx.rmsgHead, rx.rmsgTail, m.lens, |m.recvd|, m.done, m.polled)
    ensures var left := rx.rmsg[rx.rmsgHead].data;
      && left == Start(m.lens, m.done + 1) - |m.recvd| >= 1
      && RingAt(c.rbufSize, |m.recvd|) + left <= c.rbufSize
      && |m.recvd| + left <= Start(m.lens, m.landed) <= |m.sent|
  {
    assert Queued(rx.rmsg, rx.rmsgHead, m.lens, |m.recvd|, m.done, 0);
    assert InHalf(m.lens, c.Half(), m.done);
    RestFits(c.Half(), Start(m.lens, m.done), m.lens[m.done], |m.recvd|);
    StartMono(m.lens, m.done + 1, m.landed);
    StartMono(m.lens, m.landed, |m.lens|);
  }

  /** With data queued, the head message is there to be read and fits. */
  lemma QueueHead(c: Config, rx: Rx, m: Msgs)
    requires ValidConfig(c) && RxShape(c, rx) && StreamInv(m, c.Half())
    requires RingInv(c.rqSize, rx.rmsg, rx.rmsgHead, rx.rmsgTail, m.lens, |m.recvd|, m.done, m.polled)
    ensures HaveRdata(rx) <==> m.done < m.polled
    ensures HaveRdata(rx) ==> HeadFits(c, rx)
  {
    if m.done < m.polled {
      HeadMessage(c, rx, m);
    }
  }

  /** The next bytes to read of the message at the head, at most `left` of them. */
  lemma HeadBytes(c: Config, rx: Rx, m: Msgs, left: nat) returns (at: nat, n: nat)
    requires ValidConfig(c) && HeadFits(c, rx) && StreamInv(m, c.Half()) && m.done < m.polled && left > 0
    requires RingInv(c.rqSize, rx.rmsg, rx.rmsgHead, rx.rmsgTail, m.lens, |m.recvd|, m.done, m.polled)
    requires MemInv(rx.rbuf, m.sent, |m.recvd|, Start(m.lens, m.landed))
    requires OffsetOk(rx.rbufOffset, c.rbufSize, |m.recvd|)
    ensures var data := rx.rmsg[rx.rmsgHead].data;
      data == Start(m.lens, m.done + 1) - |m.recvd| >= 1 && n == if left < data then left else data
    ensures at + n <= |rx.rbuf| && |m.recvd| + n <= |m.sent|
    ensures rx.rbuf[at..at + n] == m.sent[|m.recvd|..|m.recvd| + n]
    ensures rx.rbufOffset == at || (rx.rbufOffset == |rx.rbuf| && at == 0)
    ensures OffsetOk(at + n, c.rbufSize, |m.recvd| + n)
  {
    HeadMessage(c, rx, m);
    n := if left < rx.rmsg[rx.rmsgHead].data then left else rx.rmsg[rx.rmsgHead].data;
    at := NextBytes(rx.rbuf, rx.rbufOffset, m.sent, |m.recvd|, n);
  }

  /** One pass of the copy loop: `out` is the n bytes at `at`. */
  lemma ChunkResult(c: Config, rx: Rx, left: nat, n: nat, at: nat)
    requires HeadFits(c, rx) && n == if left < rx.rmsg[rx.rmsgHead].data then left else rx.rmsg[rx.rmsgHead].data
    requires n >= 1 && at + n <= c.rbufSize && (rx.rbufOffset == at || (rx.rbufOffset == c.rbufSize && at == 0))
    ensures var (rx', out) := RecvChunk(c, rx, left);
      out == rx.rbuf[at..at + n] && rx'.rbufOffset == at + n
  {
    ChunkOfRing(rx.rbuf, rx.rbufOffset, at, n);
  }

  lemma ChunkFields(c: Config, rx: Rx, left: nat)
    requires HeadFits(c, rx)
    ensures var (rx', out) := RecvChunk(c, rx, left);
      var head := rx.rmsg[rx.rmsgHead];
      var whole := left >= head.data;
      && |out| == (if whole then head.data else left)
      && rx'.rbuf == rx.rbuf
      && rx'.rseqNo == (if whole then U16(rx.rseqNo + 1) else rx.rseqNo) && rx'.rseqComp == rx.rseqComp
      && rx'.rbufFreeOffset == rx.rbufFreeOffset && rx'.remoteSge == rx.remoteSge
      && rx'.rbufBytesAvail == rx.rbufBytesAvail + |out|
      && rx'.rmsgTail == rx.rmsgTail
      && rx'.rmsgHead
         == (if !whole then rx.rmsgHead else if rx.rmsgHead + 1 == c.rqSize + 1 then 0 else rx.rmsgHead + 1)
      && rx'.rmsg == (if whole then rx.rmsg else rx.rmsg[rx.rmsgHead := Rmsg(head.op, head.data - left)])
  {
  }

  lemma RecvPart(rqSize: nat, rmsg: seq<Rmsg>, head: nat, tail: nat, m: Msgs, n: nat)
    requires RingInv(rqSize, rmsg, head, tail, m.lens, |m.recvd|, m.done, m.polled) && m.done < m.polled
    requires n < rmsg[head].data
    ensures RingInv(rqSize, rmsg[head := Rmsg(rmsg[head].op, rmsg[head].data - n)], head, tail,
                    m.lens, |m.recvd| + n, m.done, m.polled)
  {
    var rmsg' := rmsg[head := Rmsg(rmsg[head].op, rmsg[head].data - n)];
    var recvd' := |m.recvd| + n;
    assert Queued(rmsg, head, m.lens, |m.recvd|, m.done, 0);
    forall j: nat | j < m.polled - m.done
      ensures Queued(rmsg', head, m.lens, recvd', m.done, j)
    {
      assert Queued(rmsg, head, m.lens, |m.recvd|, m.done, j);
    }
  }

  lemma RecvWhole(rqSize: nat, rmsg: seq<Rmsg>, head: nat, tail: nat, m: Msgs)
    requires RingInv(rqSize, rmsg, head, tail, m.lens, |m.recvd|, m.done, m.polled) && m.done < m.polled
    requires |m.recvd| + rmsg[head].data == Start(m.lens, m.done + 1)
    ensures RingInv(rqSize, rmsg, if head + 1 == rqSize + 1 then 0 else head + 1, tail,
                    m.lens, |m.recvd| + rmsg[head].data, m.done + 1, m.polled)
  {
    var head', recvd', done' := if head + 1 == rqSize + 1 then 0 else head + 1, |m.recvd| + rmsg[head].data, m.done + 1;
    forall j: nat | j < m.polled - done'
      ensures Queued(rmsg, head', m.lens, recvd', done', j)
    {
      assert Queued(rmsg, head, m.lens, |m.recvd|, m.done, j + 1);
    }
  }

  lemma RecvRing(c: Config, rx: Rx, m: Msgs, left: nat)
    requires HeadFits(c, rx) && m.done < m.polled
    requires RingInv(c.rqSize, rx.rmsg, rx.rmsgHead, rx.rmsgTail, m.lens, |m.recvd|, m.done, m.polled)
    requires |m.recvd| + rx.rmsg[rx.rmsgHead].data == Start(m.lens, m.done + 1)
    ensures var (rx', out) := RecvChunk(c, rx, left);
      RingInv(c.rqSize, rx'.rmsg, rx'.rmsgHead, rx'.rmsgTail, m.lens, |m.recvd| + |out|,
              if left >= rx.rmsg[rx.rmsgHead].data then m.done + 1 else m.done, m.polled)
  {
    ChunkFields(c, rx, left);
    if left >= rx.rmsg[rx.rmsgHead].data {
      RecvWhole(c.rqSize, rx.rmsg, rx.rmsgHead, rx.rmsgTail, m);
    } else {
      RecvPart(c.rqSize, rx.rmsg, rx.rmsgHead, rx.rmsgTail, m, left);
    }
  }

  lemma RecvStream(m: Msgs, half: nat, out: seq<byte>, whole: bool)
    requires StreamInv(m, half) && m.done < m.polled && |out| >= 1
    requires var rest := Start(m.lens, m.done + 1) - |m.recvd|; if whole then |out| == rest else |out| < rest
    requires |m.recvd| + |out| <= |m.sent| && out == m.sent[|m.recvd|..|m.recvd| + |out|]
    ensures StreamInv(MRecv(m, out, whole), half)
  {
    var m' := MRecv(m, out, whole);
    assert m'.recvd == m.sent[..|m'.recvd|];
    if whole && m'.done < m'.polled {
      assert Start(m.lens, m'.done + 1) == Start(m.lens, m'.done) + m.lens[m'.done];
    }
  }

  lemma RecvLimits(rseqNo: u16, rseqNo': u16, rseqComp: u16, rqSize: nat, done: nat, done': nat, limits: seq<nat>)
    requires LimitsGiven(rseqNo, rseqComp, rqSize, done, limits)
    requires (done' == done && rseqNo' == rseqNo) || (done' == done + 1 && rseqNo' == U16(rseqNo + 1))
    ensures LimitsGiven(rseqNo', rseqComp, rqSize, done', limits)
  {
    Low16IsMod(done);
    Low16IsMod(done');
  }

  lemma RecvSpace(avail: int, avail': int, freeOffset: nat, remoteSge: nat, half: nat, recvd: nat, recvd': nat,
                  granted: nat)
    requires SpaceGiven(avail, freeOffset, remoteSge, half, recvd, granted) && avail' - avail == recvd' - recvd >= 0
    ensures SpaceGiven(avail', freeOffset, remoteSge, half, recvd', granted)
  {
  }

  lemma RecvMem(rbuf: seq<byte>, sent: seq<byte>, recvd: nat, recvd': nat, landed: nat)
    requires MemInv(rbuf, sent, recvd, landed) && recvd <= recvd'
    ensures MemInv(rbuf, sent, recvd', landed)
  {
  }

  /** What a pass of the copy loop that returns `out` has done; `whole` when it
      used up the message at the head. */
  ghost predicate Reads(c: Config, rx: Rx, rx': Rx, out: seq<byte>, m: Msgs, whole: bool) {
    && |out| >= 1 && |m.recvd| + |out| <= |m.sent| && m.done < |m.lens|
    && (var rest := Start(m.lens, m.done + 1) - |m.recvd|; if whole then |out| == rest else |out| < rest)
    && out == m.sent[|m.recvd|..|m.recvd| + |out|]
    && rx'.rbuf == rx.rbuf && OffsetOk(rx'.rbufOffset, c.rbufSize, |m.recvd| + |out|)
    && rx'.rseqNo == (if whole then U16(rx.rseqNo + 1) else rx.rseqNo) && rx'.rseqComp == rx.rseqComp
    && rx'.rbufFreeOffset == rx.rbufFreeOffset && rx'.remoteSge == rx.remoteSge
    && rx'.rbufBytesAvail == rx.rbufBytesAvail + |out|
  }

  lemma ChunkReads(c: Config, rx: Rx, m: Msgs, left: nat)
    requires ValidConfig(c) && HeadFits(c, rx) && StreamInv(m, c.Half()) && m.done < m.polled && left > 0
    requires RingInv(c.rqSize, rx.rmsg, rx.rmsgHead, rx.rmsgTail, m.lens, |m.recvd|, m.done, m.polled)
    requires MemInv(rx.rbuf, m.sent, |m.recvd|, Start(m.lens, m.landed))
    requires OffsetOk(rx.rbufOffset, c.rbufSize, |m.recvd|)
    ensures var (rx', out) := RecvChunk(c, rx, left);
      && Reads(c, rx, rx', out, m, left >= rx.rmsg[rx.rmsgHead].data)
      && |m.recvd| + rx.rmsg[rx.rmsgHead].data == Start(m.lens, m.done + 1)
  {
    var at, n := HeadBytes(c, rx, m, left);
    ChunkResult(c, rx, left, n, at);
    ChunkFields(c, rx, left);
  }

  lemma RecvCore(snd: Endpoint, rcv: Endpoint, rx': Rx, fwd: Link, bwd: Link, h: Hist, out: seq<byte>, whole: bool)
    requires Shape(snd) && Shape(rcv) && DirInv(snd, rcv, fwd, bwd, h) && h.m.done < h.m.polled
    requires Reads(rcv.cfg, rcv.rx, rx', out, h.m, whole)
    requires RingInv(rcv.cfg.rqSize, rx'.rmsg, rx'.rmsgHead, rx'.rmsgTail, h.m.lens, |h.m.recvd| + |out|,
                     if whole then h.m.done + 1 else h.m.done, h.m.polled)
    ensures DirInv(snd, rcv.(rx := rx'), fwd, bwd, h.(m := MRecv(h.m, out, whole)))
  {
    var c, rx, m, m' := rcv.cfg, rcv.rx, h.m, MRecv(h.m, out, whole);
    RecvStream(m, c.Half(), out, whole);
    RecvLimits(rx.rseqNo, rx'.rseqNo, rx.rseqComp, c.rqSize, m.done, m'.done, h.c.limits);
    RecvSpace(rx.rbufBytesAvail, rx'.rbufBytesAvail, rx.rbufFreeOffset, rx.remoteSge, c.Half(), |m.recvd|, |m'.recvd|,
              h.g.granted);
    RecvMem(rx.rbuf, m.sent, |m.recvd|, |m'.recvd|, Start(m.lens, m.landed));
  }

  /** One pass of rrecv's copy loop returns the next bytes of the stream. */
  lemma RecvStep(snd: Endpoint, rcv: Endpoint, fwd: Link, bwd: Link, h: Hist, left: nat)
    requires Shape(snd) && Shape(rcv) && DirInv(snd, rcv, fwd, bwd, h) && HaveRdata(rcv.rx) && left > 0
    ensures HeadFits(rcv.cfg, rcv.rx)
    ensures var (rx', out) := RecvChunk(rcv.cfg, rcv.rx, left);
      DirInv(snd, rcv.(rx := rx'), fwd, bwd, h.(m := MRecv(h.m, out, left >= rcv.rx.rmsg[rcv.rx.rmsgHead].data)))
  {
    hide SentWithin, LimitsGiven, SpaceGiven, SpaceUsed, TargetInv, RingInv, MemInv, OffsetOk, FwdPipe,
         ArrPipe, BwdPipe, ArrLimits;
    QueueHead(rcv.cfg, rcv.rx, h.m);
    var (rx', out) := RecvChunk(rcv.cfg, rcv.rx, left);
    ChunkReads(rcv.cfg, rcv.rx, h.m, left);
    RecvRing(rcv.cfg, rcv.rx, h.m, left);
    RecvCore(snd, rcv, rx', fwd, bwd, h, out, left >= rcv.rx.rmsg[rcv.rx.rmsgHead].data);
  }
}
