/** struct rsocket and the calls on a non-blocking stream socket, each proved to
    do what its specification function says. */
module Rsockets {
  import opened Common
  import opened Wire
  import opened EndpointOps
  import opened SendQueue
  import opened Calls
  import opened SendHalves
  import opened RecvHalves

  class Rsocket {
    const cfg: Config
    const tx: SendHalf
    const rx: RecvHalf
    var st: SockState
    var recvs: int
    var iomapQueue: seq<Iomap>

    ghost function Abs(): Sock
      reads this, tx, tx.sbuf, rx, rx.rbuf, rx.rmsg
    {
      Sock(Endpoint(cfg, tx.Abs(), rx.Abs(), st), tx.posted, tx.completed, recvs, iomapQueue)
    }

    ghost predicate Valid()
      reads this, tx, tx.sbuf, rx, rx.rbuf, rx.rmsg
    {
      tx.cfg == cfg && rx.cfg == cfg && tx.sbuf != rx.rbuf && SockInv(Abs())
    }

    /** What holds in the middle of rs_poll_cq. */
    ghost predicate Held()
      reads this, tx, tx.sbuf, rx, rx.rbuf, rx.rmsg
    {
      tx.cfg == cfg && rx.cfg == cfg && tx.sbuf != rx.rbuf && Core(Abs())
    }

    constructor (c: Config, conn: ConnData)
      requires ValidConfig(c) && conn.dataBuf.length >= 0
      ensures Valid() && Abs() == Sock(SaveConn(InitBufs(c), conn), [], 0, c.rqSize, [])
      ensures fresh(tx) && fresh(tx.sbuf) && fresh(rx) && fresh(rx.rbuf) && fresh(rx.rmsg)
    {
      cfg := c;
      tx := new SendHalf(c, conn);
      rx := new RecvHalf(c, conn);
      st := CONNECT_RDWR;
      recvs, iomapQueue := c.rqSize, [];
      new;
      InitQueue(c, tx.Abs());
      assert tx.posted[0..] == [];
    }

    // ---- credits ----

    /** rs_give_credits */
    method GivesCredits() returns (r: bool)
      requires Valid()
      ensures r == GiveCredits(Abs().ep)
    {
      var avail: bool;
      if cfg.msgSend {
        avail := S32(U32(U32(tx.ctrlSeqno + 1) - tx.ctrlMaxSeqno)) < 0;
      } else {
        avail := tx.ctrlSeqno != tx.ctrlMaxSeqno;
      }
      r := (rx.rbufBytesAvail >= cfg.rbufSize / 2 || S16(U16(S16(rx.rseqNo) - S16(rx.rseqComp))) >= 0)
           && avail && st.connected;
    }

    /** rs_send_credits */
    method SendCredits()
      requires Valid()
      modifies tx, rx
      ensures var (e, wrs) := EndpointOps.SendCredits(old(Abs().ep));
        Abs() == old(Abs()).(ep := e, posted := old(tx.posted) + wrs)
    {
      hide PostWriteMsg, QueueInv;
      tx.ctrlSeqno := U32(tx.ctrlSeqno + 1);
      rx.rseqComp := U16(rx.rseqNo + cfg.rqSize / 2);
      if rx.rbufBytesAvail >= cfg.rbufSize / 2 {
        tx.PostGrant(Sge(rx.rbufFreeOffset, cfg.rbufSize / 2), rx.remoteSge, MsgSet(OP_SGL, rx.rseqNo + cfg.rqSize));
        rx.Grant();
      } else {
        tx.posted := tx.posted + [PostMsg(MsgSet(OP_SGL, rx.rseqNo + cfg.rqSize))];
      }
    }

    /** rs_update_credits */
    method UpdateCredits()
      requires Valid()
      modifies tx, rx
      ensures Valid() && Abs() == Update(old(Abs()))
    {
      UpdateInv(Abs());
      var give := GivesCredits();
      if give {
        SendCredits();
      } else {
        assert tx.posted + [] == tx.posted;
      }
    }

    // ---- the completion queue ----

    /** rs_poll_cq on a receive completion; `ends` when it disconnects. */
    method PollReceipt(msg: nat) returns (ends: bool)
      requires Held()
      modifies `st, `recvs, tx, rx, rx.rmsg
      ensures Abs() == Apply(old(Abs()), Receipt(msg)) && ends == Ends(old(Abs().ep), Receipt(msg))
    {
      hide QueueInv;
      var op, data := MsgOp(msg), MsgData(msg);
      ends, recvs := false, recvs - 1;
      if op == OP_SGL {
        tx.sseqComp := U16(data);
      } else if op == OP_CTRL {
        if data == CTRL_DISCONNECT {
          st := DISCONNECTED;
          ends := true;
        } else if data == CTRL_SHUTDOWN {
          if st.writable {
            st := st.(readable := false);
          } else {
            st := DISCONNECTED;
            ends := true;
          }
        }
      } else if op != OP_IOMAP_SGL && op != OP_WRITE {
        rx.Push(op, data);
      }
    }

    /** rs_poll_cq on a send completion */
    method PollDone()
      requires Held()
      modifies `st, tx
      ensures Abs() == Apply(old(Abs()), Done)
    {
      hide QueueInv, PollSend;
      if tx.completed < |tx.posted| {
        SendState(Abs().ep, tx.posted[tx.completed]);
        var closes := tx.Complete(Abs().ep);
        if closes {
          st := DISCONNECTED;
        }
      }
    }

    /** The adapter executes a write of the peer. */
    method LandRemote(dst: Target, datum: Option<Datum>)
      requires Held()
      modifies tx, rx.rbuf
      ensures Abs() == Apply(old(Abs()), Remote(dst, datum))
    {
      hide QueueInv;
      match (dst, datum)
      case (PeerRbuf(a), Some(Bytes(b))) =>
        if 0 <= a && a + |b| <= rx.rbuf.Length {
          rx.Fill(a, b);
        }
      case (PeerSgl(k), Some(SgeVal(sge))) =>
        if k < |tx.targetSgl| {
          tx.targetSgl := tx.targetSgl[k := sge];
        }
      case _ =>
    }

    /** The loop of rs_poll_cq, with what lands in the meantime; `rcnt` receives are
        used up, and `ended` when the peer's message disconnected. */
    method ScanCq(items: seq<Item>) returns (rcnt: nat, ended: bool)
      requires Held() && ItemsOk(cfg, items) && Alone(items)
      modifies `st, `recvs, tx, rx, rx.rmsg, rx.rbuf
      ensures Held() && (Abs(), rcnt, ended) == Scan(old(Abs()), items)
    {
      hide Core, Apply, Scan, Scanned, ItemsOk, Ends;
      var i := 0;
      rcnt, ended := 0, false;
      ScanStart(Abs(), items);
      while i < |items|
        invariant i <= |items| && Held() && !ended && Scanned(old(Abs()), items, Abs(), i, rcnt)
      {
        ScanStep(old(Abs()), items, Abs(), i, rcnt);
        match items[i] {
          case Receipt(msg) =>
            ended := PollReceipt(msg);
            rcnt := rcnt + 1;
            if ended {
              return;
            }
          case Done =>
            PollDone();
          case Remote(dst, datum) =>
            LandRemote(dst, datum);
        }
        i := i + 1;
      }
      ScanEnd(old(Abs()), items, Abs(), rcnt);
    }

    /** rs_poll_cq: a socket still connected posts as many receives as were used. */
    method PollCq(items: seq<Item>)
      requires Valid() && ItemsOk(cfg, items) && Alone(items)
      modifies `st, `recvs, tx, rx, rx.rmsg, rx.rbuf
      ensures Valid() && Abs() == PollAll(old(Abs()), items)
    {
      hide Core, Scan;
      var rcnt, ended := ScanCq(items);
      if !ended && st.connected {
        ghost var k1 := Abs();
        var left := rcnt;
        while left > 0
          invariant left <= rcnt && Abs() == k1.(recvs := k1.recvs + rcnt - left)
        {
          recvs := recvs + 1;
          left := left - 1;
        }
      }
      assert Abs() == PollAll(old(Abs()), items);
    }

    // ---- rsend and rsendv ----

    /** rs_can_send */
    method CanSendNow() returns (r: bool)
      requires Valid()
      ensures r == CanSend(cfg, tx.Abs())
    {
      if cfg.msgSend {
        r := tx.sqeAvail >= 2;
      } else {
        r := tx.sqeAvail != 0;
      }
      r := r && tx.sbufBytesAvail >= SNDLOWAT && tx.sseqNo != tx.sseqComp && tx.targetSgl[tx.targetSge].length != 0;
    }

    /** The head of an iteration: go on if a transfer is possible, else process the
        completion queue once and see whether it is now. */
    method MakeReady(items: seq<Item>) returns (waited: bool, err: Option<Errno>)
      requires Valid() && ItemsOk(cfg, items) && Alone(items)
      modifies `st, `recvs, tx, rx, rx.rmsg, rx.rbuf
      ensures Valid() && waited == !CanSend(cfg, old(tx.Abs()))
      ensures (Abs(), err) == Ready(old(Abs()), items)
      ensures err == Some(EWOULDBLOCK) <==> waited && st.writable && !CanSend(cfg, tx.Abs())
      ensures err == Some(ECONNRESET) <==> waited && !st.writable
      ensures err == None <==> !waited || (st.writable && CanSend(cfg, tx.Abs()))
    {
      hide SockInv, PollAll, Update, Core;
      ReadyExact(Abs(), items);
      var can := CanSendNow();
      waited, err := !can, None;
      if !can {
        UpdateInv(Abs());
        UpdateCredits();
        PollCq(items);
        UpdateInv(Abs());
        can := CanSendNow();
        var test := can || !st.writable;
        UpdateCredits();
        if !test {
          err := Some(EWOULDBLOCK);
        } else if !st.writable {
          err := Some(ECONNRESET);
        }
      }
    }

    /** The size of the next transfer, and the size to try after it. */
    method NextSize(olen: nat, left: nat) returns (n: nat, olen': nat)
      requires Valid() && CanSend(cfg, tx.Abs()) && OlenOk(olen) && left >= 1
      ensures (n, olen') == XferSize(tx.Abs(), olen, left)
    {
      NextFits(Abs(), olen, left);
      olen' := olen;
      var size: int := left;
      if olen < left {
        size := olen;
        if olen < MAX_TRANSFER {
          olen' := 2 * olen;
        }
      }
      if size > tx.sbufBytesAvail {
        size := tx.sbufBytesAvail;
      }
      if size > tx.targetSgl[tx.targetSge].length {
        size := tx.targetSgl[tx.targetSge].length;
      }
      n := size;
    }

    method PostChunk(data: seq<byte>)
      requires Valid() && |data| <= MAX_TRANSFER && |data| <= cfg.sbufSize
      modifies tx, tx.sbuf
      ensures Abs() == Post(old(Abs()), data, false)
    {
      hide QueueInv, Transfer;
      tx.SendChunk(data);
    }

    method PostChunkv(iov: seq<seq<byte>>, cur: nat, offset: nat, n: nat) returns (cur': nat, offset': nat)
      requires Valid() && n <= MAX_TRANSFER && n <= cfg.sbufSize
      requires InIov(iov, cur, offset) && n <= |After(iov, cur, offset)|
      modifies tx, tx.sbuf
      ensures InIov(iov, cur', offset') && After(iov, cur', offset') == After(iov, cur, offset)[n..]
      ensures Abs() == Post(old(Abs()), After(iov, cur, offset)[..n], true)
    {
      hide QueueInv, Transfer, After;
      cur', offset' := tx.SendChunkv(iov, cur, offset, n);
    }

    /** riomap: the mapping waits for the next rsend to tell the peer of it. */
    method QueueIomap(iom: Iomap)
      requires Valid() && |iom.bytes| == IOMAP_BYTES && iom.index < 0x1_0000
      modifies `iomapQueue
      ensures Valid() && Abs() == old(Abs()).(iomaps := old(iomapQueue) + [iom])
    {
      hide QueueInv;
      iomapQueue := iomapQueue + [iom];
    }

    method PopIomap()
      requires Valid() && iomapQueue != [] && IOMAP_BYTES <= cfg.sbufSize
      modifies `iomapQueue, tx, tx.sbuf
      ensures Abs() == PostIomap(old(Abs()))
    {
      hide QueueInv, EndpointOps.SendIomap;
      tx.SendIomap(iomapQueue[0].bytes, iomapQueue[0].index);
      iomapQueue := iomapQueue[1..];
    }

    /** rs_send_iomaps; `rest` is what is left of the waits. */
    method SendIomaps(waits: seq<seq<Item>>) returns (rest: seq<seq<Item>>, err: Option<Errno>)
      requires Valid() && WaitsOk(cfg, waits) && AllAlone(waits)
      modifies this, tx, tx.sbuf, rx, rx.rmsg, rx.rbuf
      ensures Valid() && (Abs(), rest, err) == IomapLoop(old(Abs()), waits) && AllAlone(rest)
      ensures err == None <==> iomapQueue == []
      ensures iomapQueue != [] && st.writable ==> err == Some(EWOULDBLOCK) && !CanSend(cfg, tx.Abs())
      ensures iomapQueue != [] && !st.writable ==> err == Some(ECONNRESET)
    {
      hide SockInv, Core, IomapLoop, Ready, WaitsOk, ItemsOk, CanSend, PostIomap, AllAlone, Alone;
      IomapLoopExact(Abs(), waits);
      rest, err := waits, None;
      while iomapQueue != []
        invariant Valid() && WaitsOk(cfg, rest) && AllAlone(rest) && err.None?
        invariant IomapLoop(old(Abs()), waits) == IomapLoop(Abs(), rest)
        decreases |iomapQueue|
      {
        IomapStep(Abs(), rest);
        AloneSplit(rest);
        var waited: bool;
        waited, err := MakeReady(First(rest));
        if waited {
          rest := Rest(rest);
        }
        if err.Some? {
          return;
        }
        PopIomap();
      }
      IomapsEnd(Abs(), rest);
    }

    /** rsend: waits[i] is what happens while it waits for the i-th time. */
    method Rsend(buf: seq<byte>, waits: seq<seq<Item>>) returns (sent: nat, err: Option<Errno>)
      requires Valid() && WaitsOk(cfg, waits) && AllAlone(waits)
      modifies this, tx, tx.sbuf, rx, rx.rmsg, rx.rbuf
      ensures Valid() && (Abs(), sent, err) == SendCall(old(Abs()), buf, waits, false)
      ensures err == None <==> iomapQueue == [] && sent == |buf|
      ensures err != None && st.writable ==> err == Some(EWOULDBLOCK) && !CanSend(cfg, tx.Abs())
      ensures err != None && !st.writable ==> err == Some(ECONNRESET)
    {
      hide AllAlone, Alone, SockInv, Core, IomapLoop, SendLoop, Goes, Ready, WaitsOk, OlenOk, ItemsOk, Post, CanSend,
           XferSize;
      SendCallExact(Abs(), buf, waits, false);
      var olen: nat := OLAP_START_SIZE;
      sent := 0;
      var rest: seq<seq<Item>>;
      rest, err := SendIomaps(waits);
      if err.Some? {
        return;
      }
      ghost var k0, waits0 := Abs(), rest;
      GoesStart(k0, buf, rest, false);
      while sent < |buf|
        invariant sent <= |buf| && Valid() && AllAlone(rest)
        invariant Goes(k0, buf, waits0, Abs(), sent, olen, rest, false)
      {
        ghost var k := Abs();
        GoesReady(k0, buf, waits0, k, sent, olen, rest, false);
        AloneSplit(rest);
        var waited: bool;
        waited, err := MakeReady(First(rest));
        if err.Some? {
          return;
        }
        var n, olen' := NextSize(olen, |buf| - sent);
        GoesAdvance(k0, buf, waits0, k, sent, olen, rest, false);
        PostChunk(buf[sent..][..n]);
        sent, olen := sent + n, olen';
        if waited {
          rest := Rest(rest);
        }
      }
      err := None;
      GoesEnd(k0, buf, waits0, Abs(), sent, olen, rest, false);
    }

    /** rsendv */
    method Rsendv(iov: seq<seq<byte>>, waits: seq<seq<Item>>) returns (sent: nat, err: Option<Errno>)
      requires Valid() && WaitsOk(cfg, waits) && AllAlone(waits)
      modifies this, tx, tx.sbuf, rx, rx.rmsg, rx.rbuf
      ensures Valid() && (Abs(), sent, err) == SendCall(old(Abs()), Flat(iov), waits, true)
      ensures err == None <==> iomapQueue == [] && sent == |Flat(iov)|
      ensures err != None && st.writable ==> err == Some(EWOULDBLOCK) && !CanSend(cfg, tx.Abs())
      ensures err != None && !st.writable ==> err == Some(ECONNRESET)
    {
      hide AllAlone, Alone, SockInv, Core, IomapLoop, SendLoop, Goes, Ready, WaitsOk, OlenOk, ItemsOk, Post, CanSend,
           XferSize, After;
      SendCallExact(Abs(), Flat(iov), waits, true);
      ghost var buf := Flat(iov);
      var len := TotalLength(iov);
      var olen: nat, cur: nat, offset: nat := OLAP_START_SIZE, 0, 0;
      sent := 0;
      var rest: seq<seq<Item>>;
      rest, err := SendIomaps(waits);
      if err.Some? {
        return;
      }
      ghost var k0, waits0 := Abs(), rest;
      GoesStart(k0, buf, rest, true);
      AfterAll(iov);
      assert buf[0..] == buf;
      while sent < len
        invariant sent <= len == |buf| && Valid() && AllAlone(rest)
        invariant Goes(k0, buf, waits0, Abs(), sent, olen, rest, true)
        invariant InIov(iov, cur, offset) && After(iov, cur, offset) == buf[sent..]
      {
        ghost var k := Abs();
        GoesReady(k0, buf, waits0, k, sent, olen, rest, true);
        AloneSplit(rest);
        var waited: bool;
        waited, err := MakeReady(First(rest));
        if err.Some? {
          return;
        }
        var n, olen' := NextSize(olen, len - sent);
        GoesAdvance(k0, buf, waits0, k, sent, olen, rest, true);
        cur, offset := PostChunkv(iov, cur, offset, n);
        assert buf[sent..][n..] == buf[sent + n..];
        sent, olen := sent + n, olen';
        if waited {
          rest := Rest(rest);
        }
      }
      err := None;
      GoesEnd(k0, buf, waits0, Abs(), sent, olen, rest, true);
    }

    // ---- rrecv ----

    /** The head of an iteration: go on if there is data, else process the completion
        queue once and see whether there is now. */
    method Await(items: seq<Item>) returns (waited: bool, err: Option<Errno>)
      requires Valid() && ItemsOk(cfg, items) && Alone(items)
      modifies `st, `recvs, tx, rx, rx.rmsg, rx.rbuf
      ensures Valid() && waited == !HaveRdata(old(rx.Abs()))
      ensures (Abs(), err) == Arrived(old(Abs()), items)
    {
      hide SockInv, PollAll, Update, Core;
      waited, err := rx.rmsgHead == rx.rmsgTail, None;
      if waited {
        UpdateInv(Abs());
        UpdateCredits();
        PollCq(items);
        UpdateInv(Abs());
        var test := rx.rmsgHead != rx.rmsgTail || !st.readable;
        UpdateCredits();
        if !test {
          err := Some(EWOULDBLOCK);
        }
      }
    }

    method CopyQueued(buf: array<byte>, at: nat, len: nat) returns (n: nat)
      requires Valid() && at + len <= buf.Length && buf != tx.sbuf && buf != rx.rbuf
      modifies rx, rx.rmsg, buf
      ensures var (k, out) := Copied(old(Abs()), len);
        Abs() == k && n == |out| && buf[..] == Splice(old(buf[..]), at, out)
    {
      hide QueueInv, RecvLoop, Splice;
      n := rx.Copy(buf, at, len);
    }

    method PeekQueued(buf: array<byte>, at: nat, len: nat) returns (n: nat)
      requires Valid() && at + len <= buf.Length && buf != tx.sbuf && buf != rx.rbuf
      modifies buf
      ensures Abs() == old(Abs())
      ensures var out := Copied(Abs(), len).1; n == |out| && buf[..] == Splice(old(buf[..]), at, out)
    {
      hide QueueInv, RecvLoop, Splice;
      n := rx.Peek(buf, at, len);
    }

    /** rrecv */
    method Rrecv(buf: array<byte>, len: nat, waits: seq<seq<Item>>, peek: bool, waitAll: bool)
        returns (n: nat, err: Option<Errno>)
      requires Valid() && WaitsOk(cfg, waits) && AllAlone(waits) && len <= buf.Length && buf != tx.sbuf
      requires buf != rx.rbuf
      modifies this, tx, rx, rx.rmsg, rx.rbuf, buf
      ensures Valid()
      ensures var (k, out, e) := RecvCall(old(Abs()), len, waits, peek, waitAll);
        Abs() == k && err == e && n == |out| && buf[..] == Splice(old(buf[..]), 0, out)
    {
      hide SockInv, Core, Arrived, Copied, RecvCall, Takes, Splice, WaitsOk, ItemsOk, AllAlone, Alone;
      n, err := 0, None;
      var rest, again := waits, true;
      ghost var got: seq<byte> := [];
      SpliceNone(buf[..], 0);
      TakesStart(Abs(), len, waits, peek, waitAll);
      while again
        invariant Valid() && n == |got| <= len && buf[..] == Splice(old(buf[..]), 0, got)
        invariant AllAlone(rest) && (again ==> Takes(old(Abs()), len, waits, peek, waitAll, Abs(), got, rest))
        invariant !again ==> RecvCall(old(Abs()), len, waits, peek, waitAll) == (Abs(), got, err)
        decreases again, |rest|, if HaveRdata(rx.Abs()) then 1 else 0
      {
        TakesStep(old(Abs()), len, waits, peek, waitAll, Abs(), got, rest);
        AloneSplit(rest);
        var waited: bool;
        waited, err := Await(First(rest));
        if err.Some? {
          return;
        }
        var size: nat;
        ghost var out := Copied(Abs(), len - n).1;
        SpliceJoin(old(buf[..]), 0, got, out);
        if peek {
          size := PeekQueued(buf, n, len - n);
        } else {
          size := CopyQueued(buf, n, len - n);
        }
        n, got := n + size, got + out;
        if waited {
          rest := Rest(rest);
        }
        again := n < len && !peek && waitAll && st.readable;
      }
    }
  }

  lemma NoneLeft(waits: seq<seq<Item>>)
    ensures if waits == [] then First(waits) == [] else |Rest(waits)| < |waits|
  {
  }

  lemma AloneSplit(waits: seq<seq<Item>>)
    requires AllAlone(waits)
    ensures Alone(First(waits)) && AllAlone(Rest(waits))
  {
  }

  lemma AfterAll(iov: seq<seq<byte>>)
    ensures InIov(iov, 0, 0) && After(iov, 0, 0) == Flat(iov)
  {
    assert iov != [] ==> iov[0][0..] == iov[0];
  }

  /** The sum of iov_len that rsendv computes first. */
  method TotalLength(iov: seq<seq<byte>>) returns (len: nat)
    ensures len == |Flat(iov)|
  {
    len := 0;
    var i := 0;
    assert iov[0..] == iov;
    while i < |iov|
      invariant i <= |iov| && len + |Flat(iov[i..])| == |Flat(iov)|
    {
      assert iov[i..][1..] == iov[i + 1..];
      len := len + |iov[i]|;
      i := i + 1;
    }
  }

  /** A send loop started in k0 has sent `sent` bytes and goes on from k. */
  ghost predicate Goes(k0: Sock, buf: seq<byte>, waits: seq<seq<Item>>, k: Sock, sent: nat, olen: nat,
                       rest: seq<seq<Item>>, vectored: bool) {
    && SockInv(k0) && WaitsOk(k0.ep.cfg, waits) && SockInv(k) && k.ep.cfg == k0.ep.cfg
    && WaitsOk(k.ep.cfg, rest) && OlenOk(olen) && sent <= |buf|
    && SendLoop(k0, buf, OLAP_START_SIZE, waits, vectored)
       == var (k', more, err) := SendLoop(k, buf[sent..], olen, rest, vectored); (k', sent + more, err)
  }

  lemma GoesStart(k: Sock, buf: seq<byte>, waits: seq<seq<Item>>, vectored: bool)
    requires SockInv(k) && WaitsOk(k.ep.cfg, waits)
    ensures Goes(k, buf, waits, k, 0, OLAP_START_SIZE, waits, vectored)
  {
    hide SockInv, SendLoop, WaitsOk;
    assert buf[0..] == buf;
  }

  lemma GoesEnd(k0: Sock, buf: seq<byte>, waits: seq<seq<Item>>, k: Sock, sent: nat, olen: nat,
                rest: seq<seq<Item>>, vectored: bool)
    requires Goes(k0, buf, waits, k, sent, olen, rest, vectored) && sent == |buf|
    ensures SockInv(k0) && WaitsOk(k0.ep.cfg, waits) && OlenOk(OLAP_START_SIZE)
    ensures SendLoop(k0, buf, OLAP_START_SIZE, waits, vectored) == (k, sent, None)
  {
    hide SockInv, WaitsOk;
    assert buf[sent..] == [];
  }

  lemma GoesReady(k0: Sock, buf: seq<byte>, waits: seq<seq<Item>>, k: Sock, sent: nat, olen: nat,
                  rest: seq<seq<Item>>, vectored: bool)
    requires Goes(k0, buf, waits, k, sent, olen, rest, vectored) && sent < |buf|
    ensures SockInv(k0) && WaitsOk(k0.ep.cfg, waits) && SockInv(k) && OlenOk(olen) && OlenOk(OLAP_START_SIZE)
    ensures k.ep.cfg == k0.ep.cfg && ItemsOk(k.ep.cfg, First(rest))
    ensures var (k1, err) := Ready(k, First(rest));
      err.Some? ==> SendLoop(k0, buf, OLAP_START_SIZE, waits, vectored) == (k1, sent, err)
  {
    hide SockInv, Ready, Advance, Later;
    WaitsSplit(k, rest);
  }

  lemma GoesAdvance(k0: Sock, buf: seq<byte>, waits: seq<seq<Item>>, k: Sock, sent: nat, olen: nat,
                    rest: seq<seq<Item>>, vectored: bool)
    requires Goes(k0, buf, waits, k, sent, olen, rest, vectored) && sent < |buf|
    requires SockInv(k) && ItemsOk(k.ep.cfg, First(rest)) && Ready(k, First(rest)).1.None?
    ensures var k1 := Ready(k, First(rest)).0;
      && SockInv(k1) && CanSend(k1.ep.cfg, k1.ep.tx)
      && TxShape(k1.ep.cfg, k1.ep.tx) && Shape(k1.ep) && k1.completed <= |k1.posted|
      && var (n, olen') := XferSize(k1.ep.tx, olen, |buf| - sent);
      && 1 <= n <= |buf| - sent && n <= MAX_TRANSFER && n <= k1.ep.cfg.sbufSize
      && SockInv(Post(k1, buf[sent..][..n], vectored))
      && Goes(k0, buf, waits, Post(k1, buf[sent..][..n], vectored), sent + n, olen',
              if CanSend(k.ep.cfg, k.ep.tx) then rest else Rest(rest), vectored)
  {
    hide SockInv, Core, Ready, Post, CanSend, Advance, XferSize, OlenOk, WaitsOk, ItemsOk, Shape, TxShape;
    SockShape(k);
    WaitsSplit(k, rest);
    LaterIs(k, rest);
    var k1 := Ready(k, First(rest)).0;
    SockShape(k1);
    AdvanceIs(k1, buf[sent..], olen, vectored);
    var n := XferSize(k1.ep.tx, olen, |buf| - sent).0;
    assert buf[sent..][n..] == buf[sent + n..];
  }

  lemma LaterIs(k: Sock, rest: seq<seq<Item>>)
    requires SockInv(k) && Shape(k.ep)
    ensures Later(k, rest) == if CanSend(k.ep.cfg, k.ep.tx) then rest else Rest(rest)
  {
    hide Core;
  }

  lemma SendState(e: Endpoint, w: Wr)
    ensures PollSend(e, w.id, w.msgSend) ==
      e.(tx := PollSend(e, w.id, w.msgSend).tx,
         st := if MsgOp(w.id) == OP_CTRL && MsgData(w.id) == CTRL_DISCONNECT then DISCONNECTED else e.st)
  {
  }

  /** A pass started in k0 has processed i items and goes on from k. */
  ghost predicate Scanned(k0: Sock, items: seq<Item>, k: Sock, i: nat, rcnt: nat) {
    && Core(k0) && Core(k) && k.ep.cfg == k0.ep.cfg && i <= |items| && ItemsOk(k0.ep.cfg, items)
    && Scan(k0, items) == var (k', more, ended) := Scan(k, items[i..]); (k', rcnt + more, ended)
  }

  lemma ScanStart(k: Sock, items: seq<Item>)
    requires Core(k) && ItemsOk(k.ep.cfg, items)
    ensures Scanned(k, items, k, 0, 0)
  {
    hide Core, Scan;
    assert items[0..] == items;
  }

  lemma ScanEnd(k0: Sock, items: seq<Item>, k: Sock, rcnt: nat)
    requires Scanned(k0, items, k, |items|, rcnt)
    ensures Core(k0) && ItemsOk(k0.ep.cfg, items) && Scan(k0, items) == (k, rcnt, false)
  {
    hide Core;
  }

  lemma ScanStep(k0: Sock, items: seq<Item>, k: Sock, i: nat, rcnt: nat)
    requires Scanned(k0, items, k, i, rcnt) && i < |items|
    ensures Core(k0) && ItemsOk(k0.ep.cfg, items) && Core(k) && Shape(k.ep) && k.completed <= |k.posted|
    ensures var k1, n := Apply(k, items[i]), rcnt + if items[i].Receipt? then 1 else 0;
      && Core(k1)
      && (Ends(k.ep, items[i]) ==> items[i].Receipt?)
      && (Ends(k.ep, items[i]) ==> Scan(k0, items) == (k1, n, true))
      && (!Ends(k.ep, items[i]) ==> Scanned(k0, items, k1, i + 1, n))
  {
    hide QueueInv, Apply, Live, Lengths, IomapsOk, ValidConfig, TxShape, RxShape, PollMsg;
    ApplyInv(k, items[i]);
    assert items[i..][1..] == items[i + 1..];
  }

  lemma IomapStep(k: Sock, rest: seq<seq<Item>>)
    requires SockInv(k) && WaitsOk(k.ep.cfg, rest) && k.iomaps != []
    ensures ItemsOk(k.ep.cfg, First(rest)) && WaitsOk(k.ep.cfg, Rest(rest))
    ensures var (k1, err) := Ready(k, First(rest));
      var rest' := if CanSend(k.ep.cfg, k.ep.tx) then rest else Rest(rest);
      && k1.ep.cfg == k.ep.cfg
      && (err.Some? ==> IomapLoop(k, rest) == (k1, rest', err))
      && (err.None? ==> && k1.iomaps == k.iomaps && IOMAP_BYTES <= k1.ep.cfg.sbufSize && Shape(k1.ep)
                        && IomapsOk(k1.iomaps) && SockInv(PostIomap(k1)) && PostIomap(k1).ep.cfg == k.ep.cfg
                        && |PostIomap(k1).iomaps| < |k.iomaps| && IomapLoop(k, rest) == IomapLoop(PostIomap(k1), rest'))
  {
    hide QueueInv, Ready, CanSend;
    var (k1, err) := Ready(k, First(rest));
    if err.None? {
      PostIomapInv(k1);
    }
  }

  lemma IomapsEnd(k: Sock, rest: seq<seq<Item>>)
    requires SockInv(k) && WaitsOk(k.ep.cfg, rest) && k.iomaps == []
    ensures IomapLoop(k, rest) == (k, rest, None)
  {
    hide SockInv, WaitsOk;
  }

  /** An rrecv started in k0 has returned `got` and goes on from k. */
  ghost predicate Takes(k0: Sock, len: nat, waits: seq<seq<Item>>, peek: bool, waitAll: bool,
                        k: Sock, got: seq<byte>, rest: seq<seq<Item>>) {
    && SockInv(k0) && WaitsOk(k0.ep.cfg, waits) && SockInv(k) && k.ep.cfg == k0.ep.cfg
    && WaitsOk(k.ep.cfg, rest) && |got| <= len
    && RecvCall(k0, len, waits, peek, waitAll)
       == var (k', out, err) := RecvCall(k, len - |got|, rest, peek, waitAll); (k', got + out, err)
  }

  lemma TakesStart(k: Sock, len: nat, waits: seq<seq<Item>>, peek: bool, waitAll: bool)
    requires SockInv(k) && WaitsOk(k.ep.cfg, waits)
    ensures Takes(k, len, waits, peek, waitAll, k, [], waits)
  {
    hide SockInv, WaitsOk, RecvCall;
    var out := RecvCall(k, len, waits, peek, waitAll).1;
    assert [] + out == out;
  }

  /** One iteration of rrecv. */
  lemma RecvUnfolds(k: Sock, len: nat, rest: seq<seq<Item>>, peek: bool, waitAll: bool)
    requires SockInv(k) && WaitsOk(k.ep.cfg, rest)
    ensures ItemsOk(k.ep.cfg, First(rest))
    ensures var (k1, err) := Arrived(k, First(rest)); var r := RecvCall(k, len, rest, peek, waitAll);
      && SockInv(k1)
      && (err.Some? ==> r == (k1, [], err))
      && (err.None? ==>
            var (k2, out) := Copied(k1, len);
            var k' := if peek then k1 else k2;
            var rest' := if HaveRdata(k.ep.rx) then rest else Rest(rest);
            var again := |out| < len && !peek && waitAll && k'.ep.st.readable;
            && SockInv(k') && k'.ep.cfg == k.ep.cfg && WaitsOk(k.ep.cfg, rest')
            && (!again ==> r == (k', out, None))
            && (again ==> |rest'| < |rest| || (HaveRdata(k.ep.rx) && !HaveRdata(k'.ep.rx)))
            && (again ==>
                  var (k'', more, err') := RecvCall(k', len - |out|, rest', peek, waitAll);
                  r == (k'', out + more, err')))
  {
    hide Core, Copied, Arrived, WaitsOk, ItemsOk, First, Rest;
    WaitsRest(k.ep.cfg, rest);
    NothingArrives(k);
    NoneLeft(rest);
  }

  lemma TakesStep(k0: Sock, len: nat, waits: seq<seq<Item>>, peek: bool, waitAll: bool,
                  k: Sock, got: seq<byte>, rest: seq<seq<Item>>)
    requires Takes(k0, len, waits, peek, waitAll, k, got, rest)
    ensures SockInv(k0) && WaitsOk(k0.ep.cfg, waits) && SockInv(k) && |got| <= len && ItemsOk(k.ep.cfg, First(rest))
    ensures var (k1, err) := Arrived(k, First(rest));
      && SockInv(k1)
      && (err.Some? ==> RecvCall(k0, len, waits, peek, waitAll) == (k1, got, err))
      && (err.None? ==>
            var (k2, out) := Copied(k1, len - |got|);
            var k' := if peek then k1 else k2;
            var rest' := if HaveRdata(k.ep.rx) then rest else Rest(rest);
            var again := |got + out| < len && !peek && waitAll && k'.ep.st.readable;
            && SockInv(k')
            && (again ==> Takes(k0, len, waits, peek, waitAll, k', got + out, rest')
                          && (|rest'| < |rest| || (HaveRdata(k.ep.rx) && !HaveRdata(k'.ep.rx))))
            && (!again ==> RecvCall(k0, len, waits, peek, waitAll) == (k', got + out, None)))
  {
    hide SockInv, Core, Copied, Arrived, WaitsOk, ItemsOk, First, Rest, RecvCall;
    var left := len - |got|;
    RecvUnfolds(k, left, rest, peek, waitAll);
    var (k1, err) := Arrived(k, First(rest));
    assert got + [] == got;
    if err.None? {
      var (k2, out) := Copied(k1, left);
      var k' := if peek then k1 else k2;
      var rest' := if HaveRdata(k.ep.rx) then rest else Rest(rest);
      if |out| < left && !peek && waitAll && k'.ep.st.readable {
        var more := RecvCall(k', left - |out|, rest', peek, waitAll).1;
        assert got + (out + more) == (got + out) + more;
      }
    }
  }
}
