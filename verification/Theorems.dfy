/** What every run of two connected rsockets guarantees. In each theorem `v` is
    the system seen from the sending side: v.a sends, v.b receives. */
module Theorems {
  import opened Common
  import opened Wire
  import opened EndpointOps
  import opened Arith
  import opened SendQueue
  import opened Channel
  import opened ChannelSteps
  import opened Protocol
  import opened ProtocolInv
  import opened Runs

  // ---- the stream ----

  /** What rrecv returned is a prefix of what rsend accepted. */
  lemma StreamPrefix(ca: Config, cb: Config, evs: seq<Event>, side: Side, v: System)
    requires Reaches(ca, cb, evs, side, v)
    ensures Received(ca, cb, evs, Other(side)) <= Sent(evs, side)
  {
    Observed(ca, cb, evs, side, v);
  }

  /** Nothing of this direction is on the way and the reader's queue is empty. */
  ghost predicate Drained(v: System) {
    v.a.link.inFlight == [] && v.a.link.arrived == [] && !HaveRdata(v.b.ep.rx)
  }

  lemma DrainedMsgs(v: System)
    requires Inv(v) && Drained(v)
    ensures var m := v.a.h.m; m.done == |m.lens| && m.recvd == m.sent
  {
    QueueHead(v.b.ep.cfg, v.b.ep.rx, v.a.h.m);
  }

  /** Nothing is lost: once the direction is drained, all of it was returned. */
  lemma StreamComplete(ca: Config, cb: Config, evs: seq<Event>, side: Side, v: System)
    requires Reaches(ca, cb, evs, side, v) && Drained(v)
    ensures Received(ca, cb, evs, Other(side)) == Sent(evs, side)
  {
    Observed(ca, cb, evs, side, v);
    DrainedMsgs(v);
  }

  // ---- end of stream ----

  /** `side` never shuts down reading itself. */
  predicate KeepsReading(evs: seq<Event>, side: Side) {
    forall i :: 0 <= i < |evs| ==> evs[i].side == side && evs[i].act.Shutdown? ==> evs[i].act.how == ShutWr
  }

  lemma StepReadShut(s: System, act: Act)
    requires Enabled(s, act)
    ensures Step(s, act).a.readShut == (s.a.readShut || (act.Shutdown? && act.how != ShutWr))
    ensures Step(s, act).b.readShut == s.b.readShut
  {
  }

  lemma {:induction false} ReadShutRecorded(ca: Config, cb: Config, evs: seq<Event>, s: System, side: Side)
    requires Run(ca, cb, evs) == Some(s) && KeepsReading(evs, side)
    ensures !View(s, side).a.readShut
  {
    if evs != [] {
      var n := |evs| - 1;
      var r := Run(ca, cb, evs[..n]).value;
      ReadShutRecorded(ca, cb, evs[..n], r, side);
      StepReadShut(View(r, evs[n].side), evs[n].act);
    }
  }

  /** rrecv returns 0 when the socket is no longer readable and nothing is queued.
      Then the peer did post a close message, and every byte it sent before that
      was returned. */
  lemma EndOfStream(ca: Config, cb: Config, evs: seq<Event>, side: Side, v: System)
    requires Reaches(ca, cb, evs, side, v) && KeepsReading(evs, Other(side))
    requires var b := v.b.ep; !HaveRdata(b.rx) && !b.st.readable
    ensures var before := BeforeClose(ca, cb, evs, side);
      before.Some? && before.value <= Received(ca, cb, evs, Other(side))
  {
    Observed(ca, cb, evs, side, v);
    ReadShutRecorded(ca, cb, evs, View(v, side), Other(side));
    var m := v.a.h.m;
    assert CloseInv(v.b, v.a.h);
    QueueHead(v.b.ep.cfg, v.b.ep.rx, m);
    StartMono(m.lens, m.closeAt.value, m.done);
  }

  // ---- credits ----

  /** The limit the receiver gave last. */
  function LastLimit(c: Credit): nat
    requires c.limits != []
  {
    c.limits[|c.limits| - 1]
  }

  /** Where the receiver owes a credit update: half a queue behind the last limit. */
  function DueAt(c: Credit, rqSize: nat): int
    requires c.limits != []
  {
    LastLimit(c) - rqSize + rqSize / 2
  }

  /** The C expressions on 16-bit values decide the comparison of the unbounded
      counters whose remainders they hold, when those are close enough. */
  lemma WrappedTests(x: nat, y: nat)
    ensures -0x8000 <= x - y < 0x8000 ==>
      (S16(U16(S16(Low16(x)) - S16(Low16(y)))) >= 0 <==> x >= y)
    ensures y <= x < y + 0x1_0000 ==> (Low16(x) != Low16(y) <==> x != y)
  {
    Low16IsMod(x);
    Low16IsMod(y);
  }

  /** The signed-short test of rs_give_credits and rs_send_credits is the true
      comparison, and sseq_no != sseq_comp says that a credit remains. */
  lemma CounterTests(ca: Config, cb: Config, evs: seq<Event>, side: Side, v: System)
    requires Reaches(ca, cb, evs, side, v)
    ensures var h, rq := v.a.h, v.b.ep.cfg.rqSize;
      && 1 <= h.c.seen <= |h.c.limits|
      && (CreditsDue(v.b.ep.rx) <==> h.m.done >= DueAt(h.c, rq))
      && (v.a.ep.tx.sseqNo != v.a.ep.tx.sseqComp <==> |h.m.lens| + h.c.iomaps < h.c.limits[h.c.seen - 1])
  {
    RunInv(ca, cb, evs, side, v);
    InvTests(v);
  }

  lemma InvTests(v: System)
    requires Inv(v)
    ensures var h, rq := v.a.h, v.b.ep.cfg.rqSize;
      && 1 <= h.c.seen <= |h.c.limits|
      && (CreditsDue(v.b.ep.rx) <==> h.m.done >= DueAt(h.c, rq))
      && (v.a.ep.tx.sseqNo != v.a.ep.tx.sseqComp <==> |h.m.lens| + h.c.iomaps < h.c.limits[h.c.seen - 1])
      && h.m.done + h.c.iomaps <= |h.m.lens| + h.c.iomaps <= h.c.limits[h.c.seen - 1] <= LastLimit(h.c) <= h.m.done + rq
  {
    hide LimitsGiven, SpaceGiven, SpaceUsed, TargetInv, RingInv, MemInv, OffsetOk, FwdPipe, ArrPipe, BwdPipe,
         ArrLimits;
    var h, tx, rx := v.a.h, v.a.ep.tx, v.b.ep.rx;
    CreditTests(tx.sseqNo, tx.sseqComp, |h.m.lens|, h.c, rx.rseqNo, rx.rseqComp, v.b.ep.cfg.rqSize, h.m.done);
  }

  lemma CreditTests(sseqNo: u16, sseqComp: u16, msgs: nat, c: Credit, rseqNo: u16, rseqComp: u16, rqSize: nat,
                    done: nat)
    requires SentWithin(sseqNo, sseqComp, msgs, c) && LimitsGiven(rseqNo, rseqComp, rqSize, done, c.limits)
    requires done <= msgs && rqSize <= QP_MAX_SIZE
    ensures S16(U16(S16(rseqNo) - S16(rseqComp))) >= 0 <==> done >= DueAt(c, rqSize)
    ensures sseqNo != sseqComp <==> msgs + c.iomaps < c.limits[c.seen - 1]
    ensures msgs + c.iomaps <= c.limits[c.seen - 1] <= LastLimit(c) <= done + rqSize
  {
    LimitWindow(sseqNo, sseqComp, msgs, c, rseqNo, rseqComp, rqSize, done);
    WrappedTests(done, DueAt(c, rqSize));
    WrappedTests(c.limits[c.seen - 1], msgs + c.iomaps);
  }

  /** Every limit in play is within rq_size messages of what was read. */
  lemma LimitWindow(sseqNo: u16, sseqComp: u16, msgs: nat, c: Credit, rseqNo: u16, rseqComp: u16, rqSize: nat,
                    done: nat)
    requires SentWithin(sseqNo, sseqComp, msgs, c) && LimitsGiven(rseqNo, rseqComp, rqSize, done, c.limits)
    requires done <= msgs
    ensures done <= msgs + c.iomaps <= c.limits[c.seen - 1] <= LastLimit(c) <= done + rqSize
  {
    assert Rising(c.limits, c.seen - 1);
  }

  /** The message ring of rq_size + 1 entries has room for every message sent, so
      a polled message never overwrites an unread one. */
  lemma MessageRoom(ca: Config, cb: Config, evs: seq<Event>, side: Side, v: System)
    requires Reaches(ca, cb, evs, side, v)
    ensures var m, rx, rq := v.a.h.m, v.b.ep.rx, v.b.ep.cfg.rqSize;
      && |m.lens| + Iomaps(evs, side) <= m.done + rq
      && (v.a.link.arrived != [] && IsDataMsg(v.a.link.arrived[0]) ==> Wrap(rq + 1, rx.rmsgTail + 1) != rx.rmsgHead)
  {
    Observed(ca, cb, evs, side, v);
    var h, tx, rx := v.a.h, v.a.ep.tx, v.b.ep.rx;
    RoomToPoll(tx.sseqNo, tx.sseqComp, |h.m.lens|, h.c, rx.rseqNo, rx.rseqComp, v.b.ep.cfg.rqSize, h.m.done);
  }

  lemma IomapState(v: System)
    requires Inv(v)
    ensures var rq := v.b.ep.cfg.rqSize;
      && v.a.h.c.iomaps <= rq && Shape(v.a.ep)
      && (v.a.h.c.iomaps == rq ==> !CanSend(v.a.ep.cfg, v.a.ep.tx))
  {
    InvTests(v);
  }

  /** Iomap messages use credits that never come back: a connection carries at
      most rq_size of them, and after that many no message of any kind. */
  lemma IomapBound(ca: Config, cb: Config, evs: seq<Event>, side: Side, v: System)
    requires Reaches(ca, cb, evs, side, v)
    ensures var rq := v.b.ep.cfg.rqSize;
      && Shape(v.a.ep) && Iomaps(evs, side) <= rq
      && (Iomaps(evs, side) == rq ==> !CanSend(v.a.ep.cfg, v.a.ep.tx))
  {
    Observed(ca, cb, evs, side, v);
    IomapState(v);
  }

  // ---- no deadlock ----

  /** Nothing is on the way in either direction, every completion is polled, the
      reader has read everything and owes no credits. */
  ghost predicate Stalled(v: System) {
    && v.a.link == Link([], [], []) && v.b.link == Link([], [], [])
    && !HaveRdata(v.b.ep.rx)
    && v.b.ep.st.connected && !GiveCredits(v.b.ep)
  }

  /** The sender's own sizes allow a transfer at all. */
  predicate RoomyConfig(c: Config) {
    c.sqSize >= QP_CTRL_SIZE + SqeUse(c) && c.sbufSize >= SNDLOWAT
  }

  /** With nothing outstanding the budgets are whole. */
  lemma IdleBudgets(n: Node)
    requires Shape(n.ep) && QueueInv(n.ep.cfg, n.ep.tx, n.link.Out()) && n.link.Out() == []
    ensures n.ep.tx.sqeAvail == n.ep.cfg.sqSize - QP_CTRL_SIZE && n.ep.tx.sbufBytesAvail == n.ep.cfg.sbufSize
    ensures CtrlAvail(n.ep.tx) && CtrlAvail2(n.ep.tx)
  {
  }

  /** An empty way back means that the sender sees every limit and every grant. */
  lemma StalledSeen(v: System)
    requires Inv(v) && v.b.link == Link([], [], [])
    ensures v.a.h.c.seen == |v.a.h.c.limits| && v.a.h.g.visible == v.a.h.g.granted
  {
  }

  lemma StalledSpace(v: System)
    requires Inv(v) && Stalled(v)
    ensures v.a.ep.tx.targetSgl[v.a.ep.tx.targetSge].length > 0 && !CreditsDue(v.b.ep.rx)
  {
    IdleBudgets(v.b);
    DrainedMsgs(v);
    StalledSeen(v);
    var g, half := v.a.h.g, v.b.ep.cfg.Half();
    assert g.filled == g.visible ==> Span(g.granted, half) == Span(g.filled, half);
  }

  lemma StalledState(v: System)
    requires Inv(v) && Stalled(v)
    ensures var h, rq := v.a.h, v.b.ep.cfg.rqSize;
      && Shape(v.a.ep) && h.c.limits != []
      && rq - rq / 2 < LastLimit(h.c) - h.m.done <= rq
      && (CanSend(v.a.ep.cfg, v.a.ep.tx) <==>
            RoomyConfig(v.a.ep.cfg) && h.c.iomaps < LastLimit(h.c) - h.m.done)
  {
    IdleBudgets(v.a);
    StalledSpace(v);
    StalledSeen(v);
    DrainedMsgs(v);
    InvTests(v);
  }

  /** A stalled connection can send exactly when its sizes allow a transfer and
      iomap messages have not used up the credits. */
  lemma NoDeadlock(ca: Config, cb: Config, evs: seq<Event>, side: Side, v: System)
    requires Reaches(ca, cb, evs, side, v) && Stalled(v)
    ensures var h, rq := v.a.h, v.b.ep.cfg.rqSize;
      && Shape(v.a.ep) && h.c.limits != []
      && rq - rq / 2 < LastLimit(h.c) - h.m.done <= rq
      && (CanSend(v.a.ep.cfg, v.a.ep.tx) <==>
            RoomyConfig(v.a.ep.cfg) && Iomaps(evs, side) < LastLimit(h.c) - h.m.done)
  {
    Observed(ca, cb, evs, side, v);
    StalledState(v);
  }

  /** So a run without iomap messages, or with no more of them than half a
      queue, never deadlocks. */
  lemma NoDeadlockFewIomaps(ca: Config, cb: Config, evs: seq<Event>, side: Side, v: System)
    requires Reaches(ca, cb, evs, side, v) && Stalled(v) && RoomyConfig(v.a.ep.cfg)
    requires var rq := v.b.ep.cfg.rqSize; Iomaps(evs, side) <= rq - rq / 2
    ensures Shape(v.a.ep) && CanSend(v.a.ep.cfg, v.a.ep.tx)
  {
    NoDeadlock(ca, cb, evs, side, v);
  }

  // ---- granted space ----

  /** Ring positions from..from+n hold no stream byte of lo..hi. */
  ghost predicate Clear(cap: nat, from: nat, n: nat, lo: nat, hi: nat) {
    cap > 0 && forall p :: lo <= p < hi ==> !(from <= RingAt(cap, p) < from + n)
  }

  /** When the receiver grants a half, that half lies in the buffer and holds
      neither an unread byte nor space granted before and not yet written. */
  lemma GrantSafe(ca: Config, cb: Config, evs: seq<Event>, side: Side, v: System)
    requires Reaches(ca, cb, evs, side, v)
    requires var b := v.b.ep; b.rx.rbufBytesAvail >= b.cfg.Half()
    ensures var b, half := v.b.ep, v.b.ep.cfg.Half();
      && b.rx.rbufFreeOffset + half <= b.cfg.rbufSize
      && |Sent(evs, side)| <= Span(v.a.h.g.granted, half)
      && Clear(b.cfg.rbufSize, b.rx.rbufFreeOffset, half,
               |Received(ca, cb, evs, Other(side))|, Span(v.a.h.g.granted, half))
  {
    Observed(ca, cb, evs, side, v);
    var g, half, recvd, b := v.a.h.g, v.b.ep.cfg.Half(), |v.a.h.m.recvd|, v.b.ep;
    SpanMono(g.visible, g.granted, half);
    GrantClear(half, recvd, g.granted);
    assert b.cfg.rbufSize == 2 * half;
  }

  lemma GrantClear(half: nat, recvd: nat, granted: nat)
    requires half > 0 && 2 * half + recvd - Span(granted, half) >= half
    ensures Clear(2 * half, HalfAt(granted, half), half, recvd, Span(granted, half))
  {
    forall p | recvd <= p < Span(granted, half)
      ensures !(HalfAt(granted, half) <= RingAt(2 * half, p) < HalfAt(granted, half) + half)
    {
      HalfMod(p, half, granted - 1);
    }
  }

  /** A grant lands in a slot of target_sgl that the sender has used up. */
  lemma SlotUsedUp(ca: Config, cb: Config, evs: seq<Event>, side: Side, v: System)
    requires Reaches(ca, cb, evs, side, v)
    requires v.b.link.inFlight != [] && v.b.link.inFlight[0].dst.PeerSgl?
    ensures var k := v.b.link.inFlight[0].dst.slot;
      k < SGL_SIZE && |v.a.ep.tx.targetSgl| == SGL_SIZE && v.a.ep.tx.targetSgl[k].length == 0
  {
    RunInv(ca, cb, evs, side, v);
    GrantVisible(v.a.ep.tx.targetSgl, v.a.ep.tx.targetSge, v.b.ep.cfg.Half(), |v.a.h.m.sent|, v.a.h.g);
  }

  /** Bytes at..at+n lie in one half of a buffer of two. */
  predicate OneHalf(half: nat, at: int, n: nat) {
    0 <= at && (at + n <= half || (half <= at && at + n <= 2 * half))
  }

  lemma HeadWrite(q: seq<Wr>, m: Msgs, cap: nat)
    requires q != [] && q[0].dst.PeerRbuf? && FwdPipe(q, m.lens, m.sent, m.closeAt, cap, m.landed, m.notified)
    ensures WriteOk(q[0], m.lens, m.sent, cap, m.landed)
  {
  }

  /** The oldest write in flight: the bytes it carries and where they land. */
  lemma WriteState(v: System)
    requires Inv(v) && v.a.link.inFlight != [] && v.a.link.inFlight[0].dst.PeerRbuf?
    ensures var w, m, b := v.a.link.inFlight[0], v.a.h.m, v.b.ep;
      && m.landed < |m.lens| && Start(m.lens, m.landed) + m.lens[m.landed] <= |m.sent|
      && var from, n := Start(m.lens, m.landed), m.lens[m.landed];
      && w.intent.intended == Some(Bytes(m.sent[from..from + n]))
      && OneHalf(b.cfg.Half(), w.dst.addr, n) && w.dst.addr >= 0
      && Clear(b.cfg.rbufSize, w.dst.addr, n, |m.recvd|, from)
  {
    hide SentWithin, LimitsGiven, TargetInv, RingInv, MemInv, OffsetOk, FwdPipe, ArrPipe, BwdPipe, ArrLimits, QueueInv,
         SpaceGiven, SpaceUsed, Clear, OneHalf;
    var m, rx, half := v.a.h.m, v.b.ep.rx, v.b.ep.cfg.Half();
    HeadWrite(v.a.link.inFlight, m, v.b.ep.cfg.rbufSize);
    assert InHalf(m.lens, half, m.landed);
    SentWindow(rx.rbufBytesAvail, rx.rbufFreeOffset, rx.remoteSge, half, |m.recvd|, |m.sent|, v.a.h.g);
    WriteClear(half, Start(m.lens, m.landed), m.lens[m.landed], |m.recvd|);
  }

  lemma FetchState(n: Node, i: nat)
    requires QueueInv(n.ep.cfg, n.ep.tx, n.link.Out()) && i < |n.link.inFlight|
    ensures Fetch(n.ep.tx, n.link.inFlight[i].src) == n.link.inFlight[i].intent.intended
  {
    assert Entry(n.ep.cfg, n.ep.tx, n.link.Out(), |n.link.acked| + i);
  }

  /** A data write carries its stream bytes from the sender's memory, lands in
      one half of the receiver's buffer and covers no unread byte. */
  lemma WriteSafe(ca: Config, cb: Config, evs: seq<Event>, side: Side, v: System)
    requires Reaches(ca, cb, evs, side, v)
    requires v.a.link.inFlight != [] && v.a.link.inFlight[0].dst.PeerRbuf?
    ensures var w, m, b := v.a.link.inFlight[0], v.a.h.m, v.b.ep;
      && m.landed < |m.lens| && Start(m.lens, m.landed) + m.lens[m.landed] <= |Sent(evs, side)|
      && var from, n := Start(m.lens, m.landed), m.lens[m.landed];
      && Fetch(v.a.ep.tx, w.src) == Some(Bytes(Sent(evs, side)[from..from + n]))
      && OneHalf(b.cfg.Half(), w.dst.addr, n) && w.dst.addr >= 0
      && Clear(b.cfg.rbufSize, w.dst.addr, n, |Received(ca, cb, evs, Other(side))|, from)
  {
    Observed(ca, cb, evs, side, v);
    FetchState(v.a, 0);
    WriteState(v);
  }

  lemma WriteClear(half: nat, from: nat, n: nat, recvd: nat)
    requires half > 0 && RingAt(half, from) + n <= half && from + n <= recvd + 2 * half
    ensures OneHalf(half, RingAt(2 * half, from), n)
    ensures Clear(2 * half, RingAt(2 * half, from), n, recvd, from)
  {
    var q := HalfOf(from, half);
    HalfMod(from, half, q);
    var at := RingAt(2 * half, from);
    forall p | recvd <= p < from
      ensures !(at <= RingAt(2 * half, p) < at + n)
    {
      var i := RingAt(2 * half, p);
      if at <= i < at + n {
        AtStep(from, 2 * half, i - at);
        AtApart(p, from + (i - at), 2 * half);
      }
    }
  }

  /** rrecv's wrap branch is only taken with nothing before the end of the buffer. */
  lemma WrapOnlyAtEnd(ca: Config, cb: Config, evs: seq<Event>, side: Side, v: System, left: nat)
    requires Reaches(ca, cb, evs, side, v) && HaveRdata(v.b.ep.rx) && left > 0
    ensures var b := v.b.ep; var rx := b.rx;
      && HeadFits(b.cfg, rx)
      && var size, end := |RecvChunk(b.cfg, rx, left).1|, b.cfg.rbufSize - rx.rbufOffset;
      size > end ==> end == 0
  {
    RunInv(ca, cb, evs, side, v);
    var b, m := v.b.ep, v.a.h.m;
    QueueHead(b.cfg, b.rx, m);
    var at, n := HeadBytes(b.cfg, b.rx, m, left);
    ChunkFields(b.cfg, b.rx, left);
  }

  // ---- the send queue ----

  /** Outstanding entries never exceed the queue, and rs_conn_all_sends_done of a
      connected socket says that nothing is outstanding. */
  lemma SendQueueBound(ca: Config, cb: Config, evs: seq<Event>, side: Side, v: System)
    requires Reaches(ca, cb, evs, side, v)
    ensures var a := v.a; var out := a.link.Out();
      && Total(DataUse, out) <= a.ep.cfg.sqSize - QP_CTRL_SIZE && Total(CtrlUse, out) <= QP_CTRL_SIZE
      && |out| <= a.ep.cfg.sqSize
      && (a.ep.st.connected ==> (AllSendsDone(a.ep) <==> out == []))
  {
    RunInv(ca, cb, evs, side, v);
    var a := v.a;
    QueueFacts(a.ep, a.link.Out());
  }

  /** Every outstanding request still finds in memory what it was posted with,
      wherever it is fetched from, and the ring budget is conserved. */
  lemma PayloadsIntact(ca: Config, cb: Config, evs: seq<Event>, side: Side, v: System)
    requires Reaches(ca, cb, evs, side, v)
    ensures var a := v.a; var out := a.link.Out();
      && a.ep.tx.sbufBytesAvail + Total(Charge, out) == a.ep.cfg.sbufSize
      && Total(RingUse, out) <= Total(Charge, out)
      && forall i :: 0 <= i < |out| ==> Fetch(a.ep.tx, out[i].src) == out[i].intent.intended
  {
    RunInv(ca, cb, evs, side, v);
    var a := v.a;
    RingWithinCharge(a.ep.cfg, a.ep.tx, a.link.Out());
    forall i | 0 <= i < |a.link.Out()|
      ensures Fetch(a.ep.tx, a.link.Out()[i].src) == a.link.Out()[i].intent.intended
    {
      assert Entry(a.ep.cfg, a.ep.tx, a.link.Out(), i);
    }
  }

  lemma SlotsApart(c: Config, tx: Tx, out: seq<Wr>, i: nat, j: nat)
    requires QueueInv(c, tx, out) && i < j < |out| && out[i].src.CtrlBuf? && out[j].src.CtrlBuf?
    ensures out[i].src != out[j].src
  {
    assert Entry(c, tx, out, i) && Entry(c, tx, out, j);
    CtrlBetween(out, i, j);
  }

  /** Two outstanding requests that fetch from the control buffers use different ones. */
  lemma CtrlBuffersApart(ca: Config, cb: Config, evs: seq<Event>, side: Side, v: System, i: nat, j: nat)
    requires Reaches(ca, cb, evs, side, v)
    requires var out := v.a.link.Out(); i < j < |out| && out[i].src.CtrlBuf? && out[j].src.CtrlBuf?
    ensures v.a.link.Out()[i].src != v.a.link.Out()[j].src
  {
    RunInv(ca, cb, evs, side, v);
    SlotsApart(v.a.ep.cfg, v.a.ep.tx, v.a.link.Out(), i, j);
  }

  lemma CtrlBetween(out: seq<Wr>, i: nat, j: nat)
    requires i < j < |out| && IsCtrl(out[i]) && IsCtrl(out[j])
    ensures Total(CtrlUse, out[j + 1..]) < Total(CtrlUse, out[i + 1..])
    ensures Total(CtrlUse, out[i + 1..]) < Total(CtrlUse, out)
  {
    assert out[i..] == [out[i]] + out[i + 1..];
    TotalSuffix(CtrlUse, out, i);
    assert out[j..][1..] == out[j + 1..] && out[i..][1..] == out[i + 1..];
    assert out[i + 1..][j - i - 1..] == out[j..];
    TotalSuffix(CtrlUse, out[i + 1..], j - i - 1);
  }
}
