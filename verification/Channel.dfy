/** One direction of a connection: what the sender has sent, what is on the way
    and what the receiver has read, and the invariant tying the two together. */
module Channel {
  import opened Common
  import opened Wire
  import opened EndpointOps
  import opened Arith

  /** The requests of one endpoint: posted and not yet executed, executed but not
      yet polled by it, and the notifications waiting in the peer's completion
      queue. */
  datatype Link = Link(inFlight: seq<Wr>, acked: seq<Wr>, arrived: seq<nat>) {
    function Out(): seq<Wr> { acked + inFlight }
  }

  /** History of one direction's messages; no step reads it.
      sent, recvd   bytes accepted by rsend, bytes returned by rrecv
      lens          lengths of the data messages posted
      landed, notified, polled, done
                    data messages whose bytes are in rbuf, whose notification
                    arrived, that are in the rmsg ring, that are fully read
      closeAt       data messages posted before the first close message
      closeSeen     the receiver polled a close message */
  datatype Msgs = Msgs(
    sent: seq<byte>, recvd: seq<byte>, lens: seq<nat>,
    landed: nat, notified: nat, polled: nat, done: nat,
    closeAt: Option<nat>, closeSeen: bool)

  /** History of granted space: halves the sender has filled, halves granted,
      halves visible in its target_sgl. */
  datatype Space = Space(filled: nat, granted: nat, visible: nat)

  /** History of credits: iomap messages posted, and the message limits given,
      arrived at the sender and polled by it. */
  datatype Credit = Credit(iomaps: nat, limits: seq<nat>, announced: nat, seen: nat)

  datatype Hist = Hist(m: Msgs, g: Space, c: Credit)

  // ---- message boundaries ----

  /** The stream offset at which message k starts. */
  function Start(lens: seq<nat>, k: nat): nat
    requires k <= |lens|
  {
    if k == 0 then 0 else Start(lens, k - 1) + lens[k - 1]
  }

  lemma {:induction false} StartPrefix(lens: seq<nat>, lens': seq<nat>, k: nat)
    requires k <= |lens| && lens <= lens'
    ensures Start(lens, k) == Start(lens', k)
  {
    if k > 0 {
      StartPrefix(lens, lens', k - 1);
    }
  }

  lemma {:induction false} StartMono(lens: seq<nat>, j: nat, k: nat)
    requires j <= k <= |lens|
    ensures Start(lens, j) <= Start(lens, k)
    decreases k
  {
    if j < k {
      StartMono(lens, j, k - 1);
    }
  }

  // ---- what is on the way from the sender ----

  predicate IsClose(msg: nat) {
    MsgOp(msg) == OP_CTRL && (MsgData(msg) == CTRL_DISCONNECT || MsgData(msg) == CTRL_SHUTDOWN)
  }

  predicate IsDataMsg(msg: nat) {
    MsgOp(msg) == OP_DATA
  }

  /** A notification found when `k` data notifications precede it and the bytes of
      `landed` messages are in place. */
  ghost predicate MsgOk(msg: nat, lens: seq<nat>, closeAt: Option<nat>, k: nat, landed: nat) {
    && (MsgOp(msg) == OP_DATA || MsgOp(msg) == OP_SGL || MsgOp(msg) == OP_IOMAP_SGL || MsgOp(msg) == OP_CTRL)
    && (IsDataMsg(msg) ==> k < landed && k < |lens| && MsgData(msg) == lens[k])
    && (IsClose(msg) ==> closeAt.Some? && closeAt.value <= k)
  }

  /** The write of message k goes to its place in the receiver's ring of `cap`
      bytes and carries its bytes of the stream. */
  ghost predicate WriteOk(w: Wr, lens: seq<nat>, sent: seq<byte>, cap: nat, k: nat) {
    && cap > 0 && k < |lens|
    && Start(lens, k) + lens[k] <= |sent|
    && RingAt(cap, Start(lens, k)) + lens[k] <= cap
    && w.dst == PeerRbuf(RingAt(cap, Start(lens, k)))
    && w.intent.intended == Some(Bytes(sent[Start(lens, k)..Start(lens, k) + lens[k]]))
  }

  /** The requests in flight are the writes of messages ln.. and the
      notifications of messages ms.., each behind its write. */
  ghost predicate FwdPipe(q: seq<Wr>, lens: seq<nat>, sent: seq<byte>, closeAt: Option<nat>, cap: nat,
                          ln: nat, ms: nat)
  {
    if q == [] then ln == |lens| && ms == |lens|
    else
      var w := q[0];
      var ln' := if w.dst.PeerRbuf? then ln + 1 else ln;
      var ms' := if w.msg.Some? && IsDataMsg(w.msg.value) then ms + 1 else ms;
      && (w.dst.PeerRbuf? ==> WriteOk(w, lens, sent, cap, ln))
      && (w.msg.Some? ==> MsgOk(w.msg.value, lens, closeAt, ms, ln'))
      && FwdPipe(q[1..], lens, sent, closeAt, cap, ln', ms')
  }

  /** The notifications in the receiver's queue are those of messages pl..ms. */
  ghost predicate ArrPipe(arr: seq<nat>, lens: seq<nat>, closeAt: Option<nat>, pl: nat, ms: nat) {
    if arr == [] then pl == ms
    else
      && MsgOk(arr[0], lens, closeAt, pl, ms)
      && ArrPipe(arr[1..], lens, closeAt, if IsDataMsg(arr[0]) then pl + 1 else pl, ms)
  }

  lemma WriteExtend(w: Wr, lens: seq<nat>, lens': seq<nat>, sent: seq<byte>, sent': seq<byte>, cap: nat, k: nat)
    requires WriteOk(w, lens, sent, cap, k) && lens <= lens' && sent <= sent'
    ensures WriteOk(w, lens', sent', cap, k)
  {
    StartPrefix(lens, lens', k);
    var a, b := Start(lens, k), Start(lens, k) + lens[k];
    assert sent'[a..b] == sent[a..b];
  }

  lemma {:induction false} FwdAppend(q: seq<Wr>, wrs: seq<Wr>, lens: seq<nat>, lens': seq<nat>,
                                     sent: seq<byte>, sent': seq<byte>,
                                     closeAt: Option<nat>, closeAt': Option<nat>, cap: nat, ln: nat, ms: nat)
    requires FwdPipe(q, lens, sent, closeAt, cap, ln, ms)
    requires lens <= lens' && sent <= sent' && (closeAt.Some? ==> closeAt' == closeAt)
    requires FwdPipe(wrs, lens', sent', closeAt', cap, |lens|, |lens|)
    ensures FwdPipe(q + wrs, lens', sent', closeAt', cap, ln, ms)
    decreases |q|
  {
    if q == [] {
      assert q + wrs == wrs;
    } else {
      assert (q + wrs)[1..] == q[1..] + wrs;
      var w := q[0];
      if w.dst.PeerRbuf? {
        WriteExtend(w, lens, lens', sent, sent', cap, ln);
      }
      FwdAppend(q[1..], wrs, lens, lens', sent, sent', closeAt, closeAt', cap,
                if w.dst.PeerRbuf? then ln + 1 else ln,
                if w.msg.Some? && IsDataMsg(w.msg.value) then ms + 1 else ms);
    }
  }

  lemma {:induction false} ArrExtend(arr: seq<nat>, lens: seq<nat>, lens': seq<nat>,
                                     closeAt: Option<nat>, closeAt': Option<nat>, pl: nat, ms: nat)
    requires ArrPipe(arr, lens, closeAt, pl, ms)
    requires lens <= lens' && (closeAt.Some? ==> closeAt' == closeAt)
    ensures ArrPipe(arr, lens', closeAt', pl, ms)
    decreases |arr|
  {
    if arr != [] {
      ArrExtend(arr[1..], lens, lens', closeAt, closeAt', if IsDataMsg(arr[0]) then pl + 1 else pl, ms);
    }
  }

  lemma {:induction false} ArrAppend(arr: seq<nat>, msg: nat, lens: seq<nat>, closeAt: Option<nat>, pl: nat, ms: nat)
    requires ArrPipe(arr, lens, closeAt, pl, ms)
    requires MsgOk(msg, lens, closeAt, ms, ms + 1)
    ensures ArrPipe(arr + [msg], lens, closeAt, pl, if IsDataMsg(msg) then ms + 1 else ms)
    decreases |arr|
  {
    var ms' := if IsDataMsg(msg) then ms + 1 else ms;
    if arr == [] {
      assert arr + [msg] == [msg];
      assert ArrPipe([msg][1..], lens, closeAt, if IsDataMsg(msg) then pl + 1 else pl, ms');
    } else {
      assert (arr + [msg])[1..] == arr[1..] + [msg];
      ArrAppend(arr[1..], msg, lens, closeAt, if IsDataMsg(arr[0]) then pl + 1 else pl, ms);
    }
  }

  // ---- what is on the way back from the receiver ----

  predicate IsLimitMsg(msg: nat) {
    MsgOp(msg) == OP_SGL
  }

  ghost predicate LimitOk(msg: nat, limits: seq<nat>, k: nat) {
    k < |limits| && U16(MsgData(msg)) == Low16(limits[k])
  }

  /** The write of grant k gives half k mod 2 and goes to slot k mod 2. */
  ghost predicate GrantOk(w: Wr, grants: nat, half: nat, k: nat) {
    && k < grants
    && w.dst == PeerSgl(Slot(k))
    && w.intent.intended == Some(SgeVal(Sge(HalfAt(k, half), half)))
  }

  ghost predicate BwdPipe(q: seq<Wr>, grants: nat, limits: seq<nat>, half: nat, gl: nat, cm: nat) {
    if q == [] then gl == grants && cm == |limits|
    else
      var w := q[0];
      && (w.dst.PeerSgl? ==> GrantOk(w, grants, half, gl))
      && (w.msg.Some? && IsLimitMsg(w.msg.value) ==> LimitOk(w.msg.value, limits, cm))
      && BwdPipe(q[1..], grants, limits, half,
                 if w.dst.PeerSgl? then gl + 1 else gl,
                 if w.msg.Some? && IsLimitMsg(w.msg.value) then cm + 1 else cm)
  }

  ghost predicate ArrLimits(arr: seq<nat>, limits: seq<nat>, seen: nat, cm: nat) {
    if arr == [] then seen == cm
    else
      && (IsLimitMsg(arr[0]) ==> LimitOk(arr[0], limits, seen) && seen < cm)
      && ArrLimits(arr[1..], limits, if IsLimitMsg(arr[0]) then seen + 1 else seen, cm)
  }

  lemma {:induction false} BwdAppend(q: seq<Wr>, wrs: seq<Wr>, grants: nat, grants': nat,
                                     limits: seq<nat>, limits': seq<nat>, half: nat, gl: nat, cm: nat)
    requires BwdPipe(q, grants, limits, half, gl, cm)
    requires grants <= grants' && limits <= limits'
    requires BwdPipe(wrs, grants', limits', half, grants, |limits|)
    ensures BwdPipe(q + wrs, grants', limits', half, gl, cm)
    decreases |q|
  {
    if q == [] {
      assert q + wrs == wrs;
    } else {
      assert (q + wrs)[1..] == q[1..] + wrs;
      var w := q[0];
      BwdAppend(q[1..], wrs, grants, grants', limits, limits', half,
                if w.dst.PeerSgl? then gl + 1 else gl,
                if w.msg.Some? && IsLimitMsg(w.msg.value) then cm + 1 else cm);
    }
  }

  lemma {:induction false} LimitsExtend(arr: seq<nat>, limits: seq<nat>, limits': seq<nat>, seen: nat, cm: nat)
    requires ArrLimits(arr, limits, seen, cm) && limits <= limits'
    ensures ArrLimits(arr, limits', seen, cm)
    decreases |arr|
  {
    if arr != [] {
      LimitsExtend(arr[1..], limits, limits', if IsLimitMsg(arr[0]) then seen + 1 else seen, cm);
    }
  }

  lemma {:induction false} LimitsAppend(arr: seq<nat>, msg: nat, limits: seq<nat>, seen: nat, cm: nat)
    requires ArrLimits(arr, limits, seen, cm)
    requires IsLimitMsg(msg) ==> LimitOk(msg, limits, cm)
    ensures ArrLimits(arr + [msg], limits, seen, if IsLimitMsg(msg) then cm + 1 else cm)
    decreases |arr|
  {
    var cm' := if IsLimitMsg(msg) then cm + 1 else cm;
    if arr == [] {
      assert arr + [msg] == [msg];
      assert ArrLimits([msg][1..], limits, if IsLimitMsg(msg) then seen + 1 else seen, cm');
    } else {
      assert (arr + [msg])[1..] == arr[1..] + [msg];
      LimitsAppend(arr[1..], msg, limits, if IsLimitMsg(arr[0]) then seen + 1 else seen, cm);
    }
  }

  // ---- the two ends ----

  /** Message k lies within one half of the receiver's buffer. */
  ghost predicate InHalf(lens: seq<nat>, half: nat, k: nat)
    requires k < |lens|
  {
    half > 0 && RingAt(half, Start(lens, k)) + lens[k] <= half
  }

  /** Where each message is, and that what was read is what was sent. */
  ghost predicate StreamInv(m: Msgs, half: nat) {
    && (forall k :: 0 <= k < |m.lens| ==> 1 <= m.lens[k] <= MAX_TRANSFER)
    && (forall k :: 0 <= k < |m.lens| ==> InHalf(m.lens, half, k))
    && Start(m.lens, |m.lens|) == |m.sent|
    && m.done <= m.polled <= m.notified <= m.landed <= |m.lens|
    && Start(m.lens, m.done) <= |m.recvd|
    && (m.done < m.polled ==> |m.recvd| < Start(m.lens, m.done + 1))
    && (m.done == m.polled ==> |m.recvd| == Start(m.lens, m.done))
    && |m.recvd| <= |m.sent| && m.recvd == m.sent[..|m.recvd|]
    && (m.closeAt.Some? ==> m.closeAt.value <= |m.lens|)
    && (m.closeSeen ==> m.closeAt.Some? && m.closeAt.value <= m.polled)
  }

  /** No later limit is below limit i. */
  ghost predicate Rising(limits: seq<nat>, i: nat)
    requires i < |limits|
  {
    forall j :: i <= j < |limits| ==> limits[i] <= limits[j]
  }

  /** The sender's credits: its 16-bit fields are the counters modulo 2^16, and
      it stays within the limit it has seen. */
  ghost predicate SentWithin(sseqNo: u16, sseqComp: u16, msgs: nat, c: Credit) {
    && 1 <= c.seen <= c.announced <= |c.limits|
    && sseqNo == Low16(msgs + c.iomaps)
    && sseqComp == Low16(c.limits[c.seen - 1])
    && msgs + c.iomaps <= c.limits[c.seen - 1]
  }

  /** The receiver's credits: the last limit given is at most rq_size messages
      ahead of what it has read. */
  ghost predicate LimitsGiven(rseqNo: u16, rseqComp: u16, rqSize: nat, done: nat, limits: seq<nat>) {
    && limits != []
    && (forall i :: 0 <= i < |limits| ==> Rising(limits, i))
    && rqSize <= limits[|limits| - 1] <= done + rqSize
    && rseqNo == Low16(done)
    && rseqComp == Low16(limits[|limits| - 1] - rqSize + rqSize / 2)
  }

  /** What the receiver has given away of its buffer. */
  ghost predicate SpaceGiven(avail: int, freeOffset: nat, remoteSge: nat, half: nat, recvd: nat, granted: nat) {
    && avail == 2 * half + recvd - Span(granted, half)
    && avail >= 0
    && freeOffset == HalfAt(granted, half)
    && remoteSge == Slot(granted)
  }

  /** The sender is within the halves it can see, which are within those granted. */
  ghost predicate SpaceUsed(half: nat, sent: nat, g: Space) {
    && half > 0
    && g.filled <= g.visible <= g.granted <= g.filled + 2
    && Span(g.filled, half) <= sent < Span(g.filled, half) + half
    && sent <= Span(g.visible, half)
  }

  /** Slot k mod 2 of target_sgl shows what is left of grant k. */
  ghost predicate TargetInv(sgl: seq<Sge>, sge: nat, half: nat, sent: nat, g: Space) {
    && |sgl| == SGL_SIZE
    && sge == Slot(g.filled)
    && (if g.filled < g.visible then
          sgl[sge] == Sge(HalfAt(g.filled, half) + (sent - Span(g.filled, half)), half - (sent - Span(g.filled, half)))
        else sgl[sge].length == 0)
    && (if g.filled + 1 < g.visible then sgl[1 - sge] == Sge(HalfAt(g.filled + 1, half), half)
        else sgl[1 - sge].length == 0)
  }

  function Wrap(n: nat, i: nat): int {
    if i >= n then i - n else i
  }

  /** What is left to read of message k when `recvd` bytes have been read. */
  function Left(lens: seq<nat>, recvd: nat, done: nat, k: nat): int
    requires done <= k < |lens|
  {
    if k == done then Start(lens, k) + lens[k] - recvd else lens[k]
  }

  /** The j-th entry from the head is message done + j. */
  ghost predicate Queued(rmsg: seq<Rmsg>, head: nat, lens: seq<nat>, recvd: nat, done: nat, j: nat)
    requires head + j < 2 * |rmsg| && done + j < |lens|
  {
    var left := Left(lens, recvd, done, done + j);
    left >= 0 && rmsg[Wrap(|rmsg|, head + j)] == Rmsg(OP_DATA, left)
  }

  /** The rmsg ring of rq_size + 1 entries holds messages done..polled, and so is
      never full. */
  ghost predicate RingInv(rqSize: nat, rmsg: seq<Rmsg>, head: nat, tail: nat,
                          lens: seq<nat>, recvd: nat, done: nat, polled: nat)
  {
    && |rmsg| == rqSize + 1 && head <= rqSize
    && done <= polled <= done + rqSize && polled <= |lens|
    && tail == Wrap(rqSize + 1, head + (polled - done))
    && (forall j :: 0 <= j < polled - done ==> Queued(rmsg, head, lens, recvd, done, j))
  }

  /** Stream byte p is at rbuf[p mod cap]. */
  ghost predicate ByteAt(rbuf: seq<byte>, sent: seq<byte>, p: nat)
    requires p < |sent|
  {
    |rbuf| > 0 && rbuf[RingAt(|rbuf|, p)] == sent[p]
  }

  /** Every landed and unread byte is in place. */
  ghost predicate MemInv(rbuf: seq<byte>, sent: seq<byte>, recvd: nat, landed: nat) {
    landed <= |sent| && forall p :: recvd <= p < landed ==> ByteAt(rbuf, sent, p)
  }

  /** The read offset is the stream position modulo the buffer, or the buffer's
      end in place of its start. */
  ghost predicate OffsetOk(offset: nat, cap: nat, pos: nat) {
    cap > 0 && (offset == RingAt(cap, pos) || (offset == cap && RingAt(cap, pos) == 0))
  }

  /** Everything that ties the sender `snd` to the receiver `rcv`. */
  ghost predicate DirInv(snd: Endpoint, rcv: Endpoint, fwd: Link, bwd: Link, h: Hist) {
    match h
    case Hist(m, g, c) =>
      var half, tx, rx := rcv.cfg.Half(), snd.tx, rcv.rx;
      && StreamInv(m, half)
      && SentWithin(tx.sseqNo, tx.sseqComp, |m.lens|, c)
      && LimitsGiven(rx.rseqNo, rx.rseqComp, rcv.cfg.rqSize, m.done, c.limits)
      && SpaceGiven(rx.rbufBytesAvail, rx.rbufFreeOffset, rx.remoteSge, half, |m.recvd|, g.granted)
      && SpaceUsed(half, |m.sent|, g)
      && TargetInv(tx.targetSgl, tx.targetSge, half, |m.sent|, g)
      && RingInv(rcv.cfg.rqSize, rx.rmsg, rx.rmsgHead, rx.rmsgTail, m.lens, |m.recvd|, m.done, m.polled)
      && MemInv(rx.rbuf, m.sent, |m.recvd|, Start(m.lens, m.landed))
      && OffsetOk(rx.rbufOffset, rcv.cfg.rbufSize, |m.recvd|)
      && FwdPipe(fwd.inFlight, m.lens, m.sent, m.closeAt, rcv.cfg.rbufSize, m.landed, m.notified)
      && ArrPipe(fwd.arrived, m.lens, m.closeAt, m.polled, m.notified)
      && BwdPipe(bwd.inFlight, g.granted, c.limits, half, g.visible, c.announced)
      && ArrLimits(bwd.arrived, c.limits, c.seen, c.announced)
  }
}
