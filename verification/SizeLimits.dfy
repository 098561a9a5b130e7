/** Why the stream results ask for an even rbuf_size and an rq_size of at most
    RS_QP_MAX_SIZE: what a single endpoint of any size does. */
module SizeLimits {
  import opened Common
  import opened Wire
  import opened EndpointOps
  import opened Arith
  import opened Theorems

  // ---- rbuf_size ----

  /** A message of n bytes arrives and is read to its end. */
  ghost function ReadOne(e: Endpoint, n: nat): Endpoint
    requires RxShape(e.cfg, e.rx) && !HaveRdata(e.rx) && n <= e.cfg.rbufSize && n <= MAX_TRANSFER
  {
    MsgRoundTrip(OP_DATA, n);
    var e1 := PollMsg(e, MsgSet(OP_DATA, n));
    e1.(rx := RecvChunk(e1.cfg, e1.rx, n).0)
  }

  /** An endpoint whose peer sends `total` bytes, which are read. */
  ghost function Reads(e: Endpoint, total: nat): (r: Endpoint)
    requires RxShape(e.cfg, e.rx) && !HaveRdata(e.rx) && total <= e.cfg.rbufSize
    ensures RxShape(r.cfg, r.rx) && !HaveRdata(r.rx) && r.cfg == e.cfg && r.tx == e.tx
    ensures r.rx.rbufBytesAvail == e.rx.rbufBytesAvail + total && r.rx.rbufFreeOffset == e.rx.rbufFreeOffset
    decreases total
  {
    if total == 0 then e
    else
      var n := if total < MAX_TRANSFER then total else MAX_TRANSFER;
      MsgRoundTrip(OP_DATA, n);
      Reads(ReadOne(e, n), total - n)
  }

  /** An endpoint of any size, connected and read from until it gives grant k. */
  ghost function AtGrant(c: Config, k: nat): (e: Endpoint)
    requires c.rqSize < 0x1_0000
    ensures e.cfg == c && CanGive(e) && RxShape(c, e.rx) && !HaveRdata(e.rx) && e.rx.rbufBytesAvail == c.Half()
  {
    if k == 0 then InitBufs(c) else Reads(SendCredits(AtGrant(c, k - 1)).0, c.Half())
  }

  /** The buffer that its grant number k offers the peer. */
  ghost function Granted(c: Config, k: nat): Option<Datum>
    requires c.rqSize < 0x1_0000
  {
    SendCredits(AtGrant(c, k)).1[0].intent.intended
  }

  /** Where grant number k starts. */
  function GrantOffset(n: nat, k: nat): nat {
    if k == 0 then n / 2
    else
      var next := GrantOffset(n, k - 1) + n / 2;
      if next >= n then 0 else next
  }

  lemma {:induction false} OffsetAfter(c: Config, k: nat)
    requires c.rqSize < 0x1_0000
    ensures AtGrant(c, k).rx.rbufFreeOffset == GrantOffset(c.rbufSize, k)
  {
    hide Reads, RxShape, PostWriteMsg, MsgSet, U32, U16;
    if k > 0 {
      OffsetAfter(c, k - 1);
    }
  }

  lemma GrantedAt(c: Config, k: nat)
    requires c.rqSize < 0x1_0000
    ensures Granted(c, k) == Some(SgeVal(Sge(GrantOffset(c.rbufSize, k), c.rbufSize / 2)))
  {
    OffsetAfter(c, k);
    MsgRoundTrip(OP_SGL, AtGrant(c, k).rx.rseqNo + c.rqSize);
  }

  lemma {:induction false} GrantAlternates(n: nat, k: nat)
    requires n % 2 == 0
    ensures GrantOffset(n, k) == HalfAt(k + 1, n / 2)
  {
    assert Slot(k + 1) == 1 - Slot(k);
    if k > 0 {
      GrantAlternates(n, k - 1);
    }
  }

  lemma {:induction false} SmallGrants(n: nat, k: nat)
    requires n <= 3
    ensures GrantOffset(n, k) + n / 2 <= n
  {
    if k > 0 {
      SmallGrants(n, k - 1);
    }
  }

  /** Grant number k lies in the buffer. */
  ghost predicate GrantInside(c: Config, k: nat)
    requires c.rqSize < 0x1_0000
  {
    match Granted(c, k)
    case Some(SgeVal(sge)) => 0 <= sge.addr && sge.addr + sge.length <= c.rbufSize
    case _ => false
  }

  /** Halves of a buffer of odd size do not add up: every grant of an endpoint lies
      in its buffer exactly when the size is even or at most 3. */
  lemma GrantsFit(c: Config)
    requires c.rqSize < 0x1_0000
    ensures (forall k: nat :: GrantInside(c, k)) <==> c.rbufSize % 2 == 0 || c.rbufSize <= 3
  {
    if c.rbufSize % 2 == 0 || c.rbufSize <= 3 {
      forall k: nat
        ensures GrantInside(c, k)
      {
        GrantedAt(c, k);
        if c.rbufSize % 2 == 0 {
          GrantAlternates(c.rbufSize, k);
        } else {
          SmallGrants(c.rbufSize, k);
        }
      }
    } else {
      OddGrant(c);
      assert !GrantInside(c, 1);
    }
  }

  /** The second grant of an odd buffer above 3 offers all but one of its bytes
      beyond the end. */
  lemma OddGrant(c: Config)
    requires c.rqSize < 0x1_0000 && c.rbufSize % 2 == 1 && c.rbufSize > 3
    ensures Granted(c, 1) == Some(SgeVal(Sge(c.rbufSize - 1, c.rbufSize / 2)))
    ensures c.rbufSize - 1 + c.rbufSize / 2 > c.rbufSize
  {
    GrantedAt(c, 1);
    assert GrantOffset(c.rbufSize, 0) == c.rbufSize / 2;
  }

  /** And a buffer of one byte, or none, is never granted at all. */
  lemma GrantsUseful(c: Config, k: nat)
    requires c.rqSize < 0x1_0000
    ensures Granted(c, k).Some? && Granted(c, k).value.SgeVal?
    ensures Granted(c, k).value.sge.length > 0 <==> c.rbufSize >= 2
  {
    GrantedAt(c, k);
  }

  // ---- rq_size ----

  /** The endpoint after m more messages have been read to their end. */
  function AfterReading(e: Endpoint, m: nat): Endpoint {
    e.(rx := e.rx.(rseqNo := U16(e.rx.rseqNo + m)))
  }

  /** Having given credits, an endpoint that reads m of the rq_size messages it gave
      them for should owe an update exactly when m is at least half of them. */
  predicate DueInTime(e: Endpoint, m: nat)
    requires CanGive(e)
  {
    CreditsDue(AfterReading(SendCredits(e).0, m).rx) <==> m >= e.cfg.rqSize / 2
  }

  lemma DueAfter(e: Endpoint, m: nat)
    requires CanGive(e) && m <= e.cfg.rqSize <= QP_MAX_SIZE
    ensures DueInTime(e, m)
  {
    var x, h := e.rx.rseqNo, e.cfg.rqSize / 2;
    WrappedTests(x + m, x + h);
    Low16IsMod(x + m);
    Low16IsMod(x + h);
  }

  /** The signed-short test does that for every m exactly up to RS_QP_MAX_SIZE: with
      one more, an endpoint that has read the whole queue owes nothing. */
  lemma QueueSizeBoundTight(e: Endpoint)
    requires CanGive(e)
    ensures (forall m: nat :: m <= e.cfg.rqSize ==> DueInTime(e, m)) <==> e.cfg.rqSize <= QP_MAX_SIZE
  {
    if e.cfg.rqSize <= QP_MAX_SIZE {
      forall m: nat | m <= e.cfg.rqSize
        ensures DueInTime(e, m)
      {
        DueAfter(e, m);
      }
    } else {
      assert !DueInTime(e, e.cfg.rqSize);
    }
  }
}
