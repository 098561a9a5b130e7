/** The buffer pools of a datagram rsocket: send slots on a free list that runs
    through the slots themselves, and the receive slots of any number of queue
    pairs, each either with the adapter or in the ring of received messages. */
module Datagram {
  import opened Common
  import opened Wire
  import opened FreeLists
  import opened SendPool

  /** A receive slot of a queue pair. */
  datatype Rslot = Rslot(qp: nat, slot: nat)

  /** A received message. */
  datatype Dmsg = Dmsg(at: Rslot, length: nat)

  /** A completion: of a send, or of a receive that carries a valid message or not. */
  datatype Wc = SendDone(slot: nat) | RecvDone(slot: nat, valid: bool, length: nat)

  // ---- the send pool ----

  /** sqe_avail counts an acyclic list of distinct slots, every other slot is in
      flight, and memory holds all of it. */
  ghost predicate SendInv(mem: seq<byte>, base: nat, slots: seq<Slot>, smsgFree: nat, sqeAvail: int, free: seq<nat>,
                          sending: set<nat>) {
    && Holds(mem, base, slots) && Within(slots) && smsgFree == Address(base, Head(free, -1))
    && Listed(slots, sqeAvail, free, sending)
  }

  ghost predicate Listed(slots: seq<Slot>, sqeAvail: int, free: seq<nat>, sending: set<nat>) {
    && ListOf(slots, Head(free, -1), free, -1) && sqeAvail == |free|
    && (forall i: nat :: i in sending ==> i < |slots| && i !in free && slots[i].Used?)
    && (forall i: nat :: i < |slots| ==> i in sending || i in free)
    && |free| + |sending| == |slots|
  }

  function Upto(n: nat): (s: seq<nat>)
    ensures |s| == n && forall i :: 0 <= i < n ==> s[i] == i
  {
    seq(n, i => i)
  }

  /** The list that ds_init_ep builds. */
  lemma AllFree(n: nat)
    ensures Listed(AllSlots(n), n, Upto(n), {})
  {
    var slots, free := AllSlots(n), Upto(n);
    forall k | 0 <= k < |free|
      ensures Linked(slots, free, -1, k)
    {
      assert k + 1 < |free| ==> free[k + 1..][0] == k + 1;
    }
    forall j: nat | j < |slots|
      ensures j in free
    {
      assert free[j] == j;
    }
  }

  /** dsend takes the head of the list; its slot was not in flight. A message that
      fits keeps the pool, and no slot but its own changes. */
  lemma TakeKeeps(mem: seq<byte>, base: nat, slots: seq<Slot>, free: seq<nat>, sending: set<nat>, m: seq<byte>)
    requires free != [] && SendInv(mem, base, slots, Address(base, free[0]), |free|, free, sending)
    ensures var i := free[0];
      && i < |slots| && i !in sending && (i + 1) * SNDLOWAT <= |mem|
      && Load(mem, i * SNDLOWAT) == Address(base, Head(free[1..], -1))
      && Listed(slots[i := Used(m)], |free| - 1, free[1..], sending + {i})
      && (1 <= |m| <= SNDLOWAT ==>
            SendInv(Copied(mem, i * SNDLOWAT, m), base, slots[i := Used(m)], Load(mem, i * SNDLOWAT), |free| - 1,
                    free[1..], sending + {i}))
  {
    var i := free[0];
    TakeHead(slots, free, -1, m);
    assert SlotHolds(mem, base, i, slots[i]);
    assert Linked(slots, free, -1, 0);
    if 1 <= |m| <= SNDLOWAT {
      ShortKeeps(mem, base, slots, i, m);
    }
  }

  /** A send completion puts its slot back at the head. */
  lemma ReturnKeeps(mem: seq<byte>, base: nat, slots: seq<Slot>, free: seq<nat>, sending: set<nat>, i: nat)
    requires SendInv(mem, base, slots, Address(base, Head(free, -1)), |free|, free, sending) && i in sending
    requires Address(base, Head(free, -1)) < TWO64
    ensures var next := Head(free, -1);
      SendInv(Copied(mem, i * SNDLOWAT, Encoded(Address(base, next), PTR_SIZE)), base, slots[i := Free(next)],
              Address(base, i), |free| + 1, [i] + free, sending - {i})
  {
    var next := Head(free, -1);
    PutHead(slots, free, -1, i);
    LinkHolds(mem, base, i, next);
    WriteHolds(mem, base, slots, i, Encoded(Address(base, next), PTR_SIZE), Free(next));
  }

  lemma HeadAddress(mem: seq<byte>, base: nat, slots: seq<Slot>, smsgFree: nat, sqeAvail: int, free: seq<nat>,
                    sending: set<nat>)
    requires SendInv(mem, base, slots, smsgFree, sqeAvail, free, sending) && base + |mem| < TWO64
    ensures sqeAvail == |free| && smsgFree == Address(base, Head(free, -1)) < TWO64
    ensures free != [] ==> free[0] < |slots|
  {
    assert free != [] ==> Linked(slots, free, -1, 0);
  }

  // ---- the receive pool ----

  function Next(rqSize: nat, i: nat): nat {
    if i + 1 == rqSize + 1 then 0 else i + 1
  }

  function At(rqSize: nat, head: nat, j: nat): int {
    if head + j > rqSize then head + j - (rqSize + 1) else head + j
  }

  /** The ring of rq_size + 1 entries holds `queue`. */
  predicate RingHolds(rqSize: nat, dmsg: seq<Dmsg>, head: nat, tail: nat, queue: seq<Dmsg>) {
    && |dmsg| == rqSize + 1 && head <= rqSize && |queue| <= rqSize && tail == At(rqSize, head, |queue|)
    && forall j :: 0 <= j < |queue| ==> dmsg[At(rqSize, head, j)] == queue[j]
  }

  lemma RingPush(rqSize: nat, dmsg: seq<Dmsg>, head: nat, tail: nat, queue: seq<Dmsg>, m: Dmsg)
    requires RingHolds(rqSize, dmsg, head, tail, queue) && |queue| < rqSize
    ensures tail < |dmsg| && RingHolds(rqSize, dmsg[tail := m], head, Next(rqSize, tail), queue + [m])
  {
  }

  lemma RingPop(rqSize: nat, dmsg: seq<Dmsg>, head: nat, tail: nat, queue: seq<Dmsg>)
    requires RingHolds(rqSize, dmsg, head, tail, queue)
    ensures head != tail <==> queue != []
    ensures queue != [] ==> dmsg[head] == queue[0] && RingHolds(rqSize, dmsg, Next(rqSize, head), tail, queue[1..])
  {
    if queue != [] {
      var head', rest := Next(rqSize, head), queue[1..];
      forall j | 0 <= j < |rest|
        ensures dmsg[At(rqSize, head', j)] == rest[j]
      {
        assert dmsg[At(rqSize, head, j + 1)] == queue[j + 1];
      }
      assert dmsg[At(rqSize, head, 0)] == queue[0];
    }
  }

  predicate InQueue(queue: seq<Dmsg>, r: Rslot) {
    exists j :: 0 <= j < |queue| && queue[j].at == r
  }

  predicate IsRslot(qps: nat, rqSize: nat, r: Rslot) {
    r.qp < qps && r.slot < rqSize
  }

  predicate Apart(queue: seq<Dmsg>) {
    forall i, j :: 0 <= i < j < |queue| ==> queue[i].at != queue[j].at
  }

  /** rqe_avail plus the queued messages is rq_size, and every receive slot of
      every queue pair is with the adapter or queued, never both or queued twice. */
  ghost predicate RecvInv(qps: nat, rqSize: nat, rqeAvail: int, posted: set<Rslot>, queue: seq<Dmsg>) {
    && rqeAvail + |queue| == rqSize && rqeAvail >= 0 && Apart(queue)
    && (forall j :: 0 <= j < |queue| ==> IsRslot(qps, rqSize, queue[j].at) && queue[j].at !in posted)
    && (forall r :: r in posted ==> IsRslot(qps, rqSize, r))
    && (forall r :: IsRslot(qps, rqSize, r) ==> r in posted || InQueue(queue, r))
  }

  lemma ReceiveKeeps(qps: nat, rqSize: nat, rqeAvail: int, posted: set<Rslot>, queue: seq<Dmsg>, m: Dmsg)
    requires RecvInv(qps, rqSize, rqeAvail, posted, queue) && m.at in posted && rqeAvail > 0
    ensures RecvInv(qps, rqSize, rqeAvail - 1, posted - {m.at}, queue + [m])
  {
    forall r | IsRslot(qps, rqSize, r)
      ensures r in posted - {m.at} || InQueue(queue + [m], r)
    {
      if InQueue(queue, r) {
        var j :| 0 <= j < |queue| && queue[j].at == r;
        assert (queue + [m])[j].at == r;
      } else if r == m.at {
        assert (queue + [m])[|queue|].at == r;
      }
    }
  }

  lemma RepostKeeps(qps: nat, rqSize: nat, rqeAvail: int, posted: set<Rslot>, queue: seq<Dmsg>)
    requires RecvInv(qps, rqSize, rqeAvail, posted, queue) && queue != []
    ensures RecvInv(qps, rqSize, rqeAvail + 1, posted + {queue[0].at}, queue[1..])
  {
    forall r | IsRslot(qps, rqSize, r)
      ensures r in posted + {queue[0].at} || InQueue(queue[1..], r)
    {
      if InQueue(queue, r) {
        var j :| 0 <= j < |queue| && queue[j].at == r;
        assert j > 0 ==> queue[1..][j - 1].at == r;
      }
    }
  }

  /** The first n receive slots of a queue pair. */
  function PairSlots(qp: nat, n: nat): set<Rslot> {
    set s | 0 <= s < n :: Rslot(qp, s)
  }

  lemma NewPairKeeps(qps: nat, rqSize: nat, rqeAvail: int, posted: set<Rslot>, queue: seq<Dmsg>)
    requires RecvInv(qps, rqSize, rqeAvail, posted, queue)
    ensures RecvInv(qps + 1, rqSize, rqeAvail, posted + PairSlots(qps, rqSize), queue)
  {
    forall r | IsRslot(qps + 1, rqSize, r)
      ensures r in posted + PairSlots(qps, rqSize) || InQueue(queue, r)
    {
      if r.qp < qps {
        assert IsRslot(qps, rqSize, r);
      } else {
        assert r == Rslot(qps, r.slot);
      }
    }
  }

  // ---- completion queues ----

  /** A completion of something outstanding. */
  predicate Legit(sending: set<nat>, posted: set<Rslot>, qp: nat, w: Wc) {
    match w
    case SendDone(slot) => slot in sending
    case RecvDone(slot, _, _) => Rslot(qp, slot) in posted
  }

  /** Two completions of the same request. */
  predicate Clash(q: nat, w: Wc, q': nat, w': Wc) {
    w.slot == w'.slot && ((w.SendDone? && w'.SendDone?) || (w.RecvDone? && w'.RecvDone? && q == q'))
  }

  /** The queues hold completions of outstanding requests, each at most once. */
  ghost predicate CqsOk(cqs: seq<seq<Wc>>, sending: set<nat>, posted: set<Rslot>) {
    && (forall q, i :: 0 <= q < |cqs| && 0 <= i < |cqs[q]| ==> Legit(sending, posted, q, cqs[q][i]))
    && (forall q, i, q', i' ::
          0 <= q < |cqs| && 0 <= i < |cqs[q]| && 0 <= q' < |cqs| && 0 <= i' < |cqs[q']| && (q != q' || i != i') ==>
            !Clash(q, cqs[q][i], q', cqs[q'][i']))
  }

  lemma PopOk(cqs: seq<seq<Wc>>, sending: set<nat>, posted: set<Rslot>, q: nat)
    requires CqsOk(cqs, sending, posted) && q < |cqs| && cqs[q] != []
    ensures Legit(sending, posted, q, cqs[q][0])
    ensures var w := cqs[q][0]; var cqs' := cqs[q := cqs[q][1..]];
      CqsOk(cqs', if w.SendDone? then sending - {w.slot} else sending,
            if w.RecvDone? then posted - {Rslot(q, w.slot)} else posted)
      && CqsOk(cqs', if w.SendDone? then sending - {w.slot} else sending, posted)
  {
    var w, cqs' := cqs[q][0], cqs[q := cqs[q][1..]];
    forall r, i | 0 <= r < |cqs'| && 0 <= i < |cqs'[r]|
      ensures Legit(if w.SendDone? then sending - {w.slot} else sending,
                    if w.RecvDone? then posted - {Rslot(q, w.slot)} else posted, r, cqs'[r][i])
    {
      var j := if r == q then i + 1 else i;
      assert cqs'[r][i] == cqs[r][j];
      assert !Clash(q, cqs[q][0], r, cqs[r][j]);
    }
    forall r, i, r', i' |
      0 <= r < |cqs'| && 0 <= i < |cqs'[r]| && 0 <= r' < |cqs'| && 0 <= i' < |cqs'[r']| && (r != r' || i != i')
      ensures !Clash(r, cqs'[r][i], r', cqs'[r'][i'])
    {
      assert !Clash(r, cqs[r][if r == q then i + 1 else i], r', cqs[r'][if r' == q then i' + 1 else i']);
    }
  }

  function One(b: bool): nat {
    if b then 1 else 0
  }

  /** How many completions in a queue have property `p`. */
  function Count(p: Wc -> bool, cq: seq<Wc>): nat {
    if cq == [] then 0 else One(p(cq[0])) + Count(p, cq[1..])
  }

  function Sum(p: Wc -> bool, cqs: seq<seq<Wc>>): nat {
    if cqs == [] then 0 else Count(p, cqs[0]) + Sum(p, cqs[1..])
  }

  predicate Any(w: Wc) {
    true
  }

  predicate IsSend(w: Wc) {
    w.SendDone?
  }

  predicate IsMessage(w: Wc) {
    w.RecvDone? && w.valid
  }

  lemma {:induction false} SumPop(p: Wc -> bool, cqs: seq<seq<Wc>>, q: nat)
    requires q < |cqs| && cqs[q] != []
    ensures Sum(p, cqs) == Sum(p, cqs[q := cqs[q][1..]]) + One(p(cqs[q][0]))
    decreases |cqs|
  {
    if q > 0 {
      SumPop(p, cqs[1..], q - 1);
      assert cqs[q := cqs[q][1..]][1..] == cqs[1..][q - 1 := cqs[q][1..]];
    }
  }

  lemma {:induction false} SumNone(p: Wc -> bool, cqs: seq<seq<Wc>>)
    requires forall q :: 0 <= q < |cqs| ==> cqs[q] == []
    ensures Sum(p, cqs) == 0
    decreases |cqs|
  {
    if cqs != [] {
      SumNone(p, cqs[1..]);
    }
  }

  // ---- what becomes of the messages ----

  /** The messages that completions of pair q announce. */
  function Announced(q: nat, cq: seq<Wc>): seq<Dmsg> {
    if cq == [] then [] else Announced(q, cq[..|cq| - 1]) + Queued(q, cq[|cq| - 1], true)
  }

  /** What a completion of pair q adds to the messages, if there is room. */
  function Queued(q: nat, w: Wc, room: bool): seq<Dmsg> {
    if IsMessage(w) && room then [Dmsg(Rslot(q, w.slot), w.length)] else []
  }

  /** The messages of pair q. */
  function Of(q: nat, queue: seq<Dmsg>): seq<Dmsg> {
    if queue == [] then []
    else
      var m, rest := queue[|queue| - 1], Of(q, queue[..|queue| - 1]);
      if m.at.qp == q then rest + [m] else rest
  }

  lemma OfQueued(q: nat, queue: seq<Dmsg>, k: nat, w: Wc, room: bool)
    ensures Of(q, queue + Queued(k, w, room)) == Of(q, queue) + if k == q then Queued(k, w, room) else []
  {
    var ms := Queued(k, w, room);
    assert ms == [] ==> queue + ms == queue;
    assert ms != [] ==> (queue + ms)[..|queue|] == queue;
  }

  /** What was polled of a queue, when `rest` is left of it. */
  function Taken(cq: seq<Wc>, rest: seq<Wc>): seq<Wc>
    requires |rest| <= |cq|
  {
    cq[..|cq| - |rest|]
  }

  /** Pair q: its queue is polled from the front, and what is queued of it are the
      messages announced there, in order; all of them if there is still room. */
  ghost predicate PairPolled(cq: seq<Wc>, rest: seq<Wc>, q: nat, added: seq<Dmsg>, room: bool) {
    && |rest| <= |cq| && rest == cq[|cq| - |rest|..]
    && Of(q, added) <= Announced(q, Taken(cq, rest))
    && (room ==> Of(q, added) == Announced(q, Taken(cq, rest)))
  }

  ghost predicate AllPolled(cqs: seq<seq<Wc>>, rest: seq<seq<Wc>>, added: seq<Dmsg>, room: bool) {
    |rest| == |cqs| && forall q :: 0 <= q < |cqs| ==> PairPolled(cqs[q], rest[q], q, added, room)
  }

  lemma NonePolled(cqs: seq<seq<Wc>>, room: bool)
    ensures AllPolled(cqs, cqs, [], room)
  {
  }

  lemma PairStep(cq: seq<Wc>, rest: seq<Wc>, q: nat, added: seq<Dmsg>, room: bool, room': bool)
    requires PairPolled(cq, rest, q, added, room) && rest != [] && (room' ==> room)
    ensures PairPolled(cq, rest[1..], q, added + Queued(q, rest[0], room), room')
  {
    var w, taken := rest[0], Taken(cq, rest);
    assert Taken(cq, rest[1..]) == taken + [w] && (taken + [w])[..|taken|] == taken;
    OfQueued(q, added, q, w, room);
  }

  /** One more completion is polled. */
  lemma PollStep(cqs: seq<seq<Wc>>, rest: seq<seq<Wc>>, added: seq<Dmsg>, room: bool, q: nat, room': bool)
    requires AllPolled(cqs, rest, added, room) && q < |rest| && rest[q] != [] && (room' ==> room)
    ensures AllPolled(cqs, rest[q := rest[q][1..]], added + Queued(q, rest[q][0], room), room')
  {
    hide PairPolled, Queued;
    var added', rest' := added + Queued(q, rest[q][0], room), rest[q := rest[q][1..]];
    forall k | 0 <= k < |cqs|
      ensures PairPolled(cqs[k], rest'[k], k, added', room')
    {
      if k == q {
        PairStep(cqs[q], rest[q], q, added, room, room');
      } else {
        OtherPair(cqs[k], rest[k], k, added, room, q, rest[q][0], room');
      }
    }
  }

  lemma OtherPair(cq: seq<Wc>, rest: seq<Wc>, k: nat, added: seq<Dmsg>, room: bool, q: nat, w: Wc, room': bool)
    requires PairPolled(cq, rest, k, added, room) && k != q && (room' ==> room)
    ensures PairPolled(cq, rest, k, added + Queued(q, w, room), room')
  {
    OfQueued(k, added, q, w, room);
    assert Of(k, added) + [] == Of(k, added);
  }

  lemma {:induction false} FirstOf(queue: seq<Dmsg>, q: nat)
    requires queue != [] && queue[0].at.qp == q
    ensures Of(q, queue) != [] && Of(q, queue)[0] == queue[0]
  {
    if |queue| > 1 {
      FirstOf(queue[..|queue| - 1], q);
    } else {
      assert queue[..0] == [];
    }
  }

  lemma {:induction false} AnnouncedPrefix(q: nat, cq: seq<Wc>, n: nat)
    requires n <= |cq|
    ensures Announced(q, cq[..n]) <= Announced(q, cq)
    decreases |cq|
  {
    if n < |cq| {
      AnnouncedPrefix(q, cq[..|cq| - 1], n);
      assert cq[..|cq| - 1][..n] == cq[..n];
    } else {
      assert cq[..n] == cq;
    }
  }

  /** The first message queued is the first one its pair announced. */
  lemma FirstAnnounced(cqs: seq<seq<Wc>>, rest: seq<seq<Wc>>, added: seq<Dmsg>, room: bool)
    requires AllPolled(cqs, rest, added, room) && added != [] && added[0].at.qp < |cqs|
    ensures var q := added[0].at.qp; Announced(q, cqs[q]) != [] && Announced(q, cqs[q])[0] == added[0]
  {
    var q := added[0].at.qp;
    assert PairPolled(cqs[q], rest[q], q, added, room);
    FirstOf(added, q);
    AnnouncedPrefix(q, cqs[q], |cqs[q]| - |rest[q]|);
  }

  // ---- the socket ----

  class Dsocket {
    const sqSize: nat
    const rqSize: nat
    const base: nat
    const sbuf: array<byte>
    var smsgFree: nat
    var sqeAvail: int
    const dmsg: array<Dmsg>
    var rmsgHead: nat
    var rmsgTail: nat
    var rqeAvail: int
    var qps: nat
    var qpList: seq<nat>

    /** `base` is the address of sbuf, and qpList the ring of queue pairs from the one
        that qp_list points to on. What the send slots hold, the free ones in list
        order, the messages in ring order, and what the adapter has: sends in flight
        and receive slots. */
    ghost var slots: seq<Slot>
    ghost var free: seq<nat>
    ghost var queue: seq<Dmsg>
    ghost var sending: set<nat>
    ghost var posted: set<Rslot>

    ghost predicate Sends()
      reads this, sbuf
    {
      && |slots| == sqSize && sbuf.Length == sqSize * SNDLOWAT && base + sbuf.Length < TWO64
      && SendInv(sbuf[..], base, slots, smsgFree, sqeAvail, free, sending)
    }

    ghost predicate Valid()
      reads this, sbuf, dmsg
    {
      && Sends() && RingOf(qps, qpList)
      && RingHolds(rqSize, dmsg[..], rmsgHead, rmsgTail, queue)
      && RecvInv(qps, rqSize, rqeAvail, posted, queue)
    }

    /** ds_init_ep; `addr` is where calloc puts sbuf. */
    constructor (sq: nat, rq: nat, addr: nat)
      requires sq > 0 && addr + sq * SNDLOWAT < TWO64
      ensures Valid() && sqSize == sq && rqSize == rq && base == addr && qps == 0 && qpList == []
      ensures sending == {} && sqeAvail == sq && queue == [] && rqeAvail == rq && fresh(sbuf) && fresh(dmsg)
    {
      sqSize, rqSize, base, qps, qpList := sq, rq, addr, 0, [];
      sqeAvail, rqeAvail, rmsgHead, rmsgTail := sq, rq, 0, 0;
      sbuf := new byte[sq * SNDLOWAT](i => 0);
      dmsg := new Dmsg[rq + 1](i => Dmsg(Rslot(0, 0), 0));
      smsgFree := addr;
      slots, free, queue, sending, posted := AllSlots(sq), Upto(sq), [], {}, {};
      new;
      LinkSlots();
      AllFree(sq);
    }

    /** memcpy into sbuf; what lies behind it is not part of this memory. */
    method Memcpy(at: nat, data: seq<byte>)
      modifies sbuf
      ensures sbuf[..] == Copied(old(sbuf[..]), at, data)
    {
      var i := 0;
      while i < |data|
        invariant i <= |data| && sbuf[..] == Copied(old(sbuf[..]), at, data[..i])
      {
        if at + i < sbuf.Length {
          sbuf[at + i] := data[i];
        }
        i := i + 1;
      }
      assert data[..i] == data;
    }

    /** The loop of ds_init_ep: each slot points to the one behind it. */
    method LinkSlots()
      requires sqSize > 0 && sbuf.Length == sqSize * SNDLOWAT && base + sbuf.Length < TWO64
      modifies sbuf
      ensures Holds(sbuf[..], base, AllSlots(sqSize))
    {
      var i := 0;
      while i < sqSize - 1
        invariant i <= sqSize - 1
        invariant forall j :: 0 <= j < i ==> SlotHolds(sbuf[..], base, j, AllSlots(sqSize)[j])
      {
        LinkStep(sbuf[..], base, sqSize, i);
        Memcpy(i * SNDLOWAT, Encoded(Address(base, i + 1), PTR_SIZE));
        i := i + 1;
      }
      LinkStep(sbuf[..], base, sqSize, i);
      Memcpy(i * SNDLOWAT, Encoded(Address(base, -1), PTR_SIZE));
    }

    /** A new queue pair posts all its receive slots; ds_insert_qp puts it behind the
        one that qp_list points to, and makes qp_list point to it. */
    method AddQp()
      requires Valid()
      modifies `qps, `qpList, `posted
      ensures Valid() && qps == old(qps) + 1
      ensures qpList == [old(qps)] + if old(qpList) == [] then [] else old(qpList)[1..] + [old(qpList)[0]]
      ensures posted == old(posted) + PairSlots(old(qps), rqSize)
    {
      hide SendInv, RingHolds;
      var i := 0;
      while i < rqSize
        invariant i <= rqSize && qps == old(qps) && qpList == old(qpList)
        invariant posted == old(posted) + PairSlots(qps, i)
      {
        posted := posted + {Rslot(qps, i)};
        i := i + 1;
      }
      NewPairKeeps(qps, rqSize, rqeAvail, old(posted), queue);
      if qpList == [] {
        qpList := [qps];
      } else {
        Rotated(qps, qpList, 1);
        assert qpList[..1] == [qpList[0]];
        qpList := qpList[1..] + [qpList[0]];
        RingAdd(qps, qpList);
        qpList := [qps] + qpList;
      }
      qps := qps + 1;
    }

    /** The part of dsend that takes a slot and copies header and datagram there. The
        pool survives if they fit, and for no other length whatever the datagram
        contains (FitExact). */
    method Take(hdr: seq<byte>, buf: seq<byte>) returns (slot: nat)
      requires Sends() && sqeAvail > 0 && hdr != []
      modifies `smsgFree, `sqeAvail, `slots, `free, `sending, sbuf
      ensures slot < sqSize && slot !in old(sending) && sending == old(sending) + {slot}
      ensures sqeAvail == old(sqeAvail) - 1
      ensures slots == old(slots)[slot := Used(hdr + buf)]
      ensures sbuf[..] == Copied(old(sbuf[..]), slot * SNDLOWAT, hdr + buf)
      ensures |hdr| + |buf| <= SNDLOWAT ==> Sends()
    {
      hide SendInv, Listed, Load, Copied;
      HeadAddress(sbuf[..], base, slots, smsgFree, sqeAvail, free, sending);
      TakeKeeps(sbuf[..], base, slots, free, sending, hdr + buf);
      var offset := smsgFree - base;
      smsgFree := Load(sbuf[..], offset);
      sqeAvail := sqeAvail - 1;
      Memcpy(offset, hdr);
      Memcpy(offset + |hdr|, buf);
      CopiedTwice(old(sbuf[..]), offset, hdr, buf);
      slot := offset / SNDLOWAT;
      slots, free, sending := slots[slot := Used(hdr + buf)], free[1..], sending + {slot};
    }

    /** ds_poll_cqs on a send completion */
    method PollSend(slot: nat)
      requires Sends() && slot in sending
      modifies `smsgFree, `sqeAvail, `slots, `free, `sending, sbuf
      ensures Sends() && sending == old(sending) - {slot} && sqeAvail == old(sqeAvail) + 1
      ensures slot < sqSize && slots == old(slots)[slot := slots[slot]] && slots[slot].Free?
    {
      HeadAddress(sbuf[..], base, slots, smsgFree, sqeAvail, free, sending);
      ReturnKeeps(sbuf[..], base, slots, free, sending, slot);
      Memcpy(slot * SNDLOWAT, Encoded(smsgFree, PTR_SIZE));
      slots := slots[slot := Free(Head(free, -1))];
      smsgFree := base + slot * SNDLOWAT;
      sqeAvail := sqeAvail + 1;
      free, sending := [slot] + free, sending - {slot};
    }

    /** ds_poll_cqs on a receive completion: queued if valid and there is room,
        else posted again. */
    method PollRecv(at: Rslot, valid: bool, length: nat)
      requires Valid() && at in posted
      modifies `rmsgTail, `rqeAvail, `queue, `posted, dmsg
      ensures Valid()
      ensures if valid && old(rqeAvail) > 0
        then queue == old(queue) + [Dmsg(at, length)] && posted == old(posted) - {at} && rqeAvail == old(rqeAvail) - 1
        else queue == old(queue) && posted == old(posted) && rqeAvail == old(rqeAvail)
    {
      if rqeAvail != 0 && valid {
        ReceiveKeeps(qps, rqSize, rqeAvail, posted, queue, Dmsg(at, length));
        RingPush(rqSize, dmsg[..], rmsgHead, rmsgTail, queue, Dmsg(at, length));
        rqeAvail := rqeAvail - 1;
        dmsg[rmsgTail] := Dmsg(at, length);
        rmsgTail := rmsgTail + 1;
        if rmsgTail == rqSize + 1 {
          rmsgTail := 0;
        }
        queue, posted := queue + [Dmsg(at, length)], posted - {at};
      }
    }

    /** The part of ds_recvfrom that takes the oldest message: its slot is posted
        again unless peeking. */
    method Pop(peek: bool) returns (m: Dmsg)
      requires Valid() && queue != []
      modifies `rmsgHead, `rqeAvail, `queue, `posted
      ensures Valid() && m == old(queue)[0]
      ensures if peek then queue == old(queue) && posted == old(posted) && rqeAvail == old(rqeAvail)
        else && queue == old(queue)[1..] && posted == old(posted) + {m.at} && m.at !in old(posted)
             && rqeAvail == old(rqeAvail) + 1
    {
      RingPop(rqSize, dmsg[..], rmsgHead, rmsgTail, queue);
      m := dmsg[rmsgHead];
      if !peek {
        RepostKeeps(qps, rqSize, rqeAvail, posted, queue);
        rmsgHead := rmsgHead + 1;
        if rmsgHead == rqSize + 1 {
          rmsgHead := 0;
        }
        rqeAvail := rqeAvail + 1;
        queue, posted := queue[1..], posted + {m.at};
      }
    }

    /** What ds_poll_cqs does with one completion. */
    method Handle(qp: nat, w: Wc)
      requires Valid() && Legit(sending, posted, qp, w)
      modifies `smsgFree, `sqeAvail, `slots, `free, `sending, sbuf, `rmsgTail, `rqeAvail, `queue, `posted, dmsg
      ensures Valid() && sending == (if w.SendDone? then old(sending) - {w.slot} else old(sending))
      ensures Kept(old(slots), slots)
      ensures sqeAvail == old(sqeAvail) + One(IsSend(w))
      ensures rqeAvail == old(rqeAvail) - One(IsMessage(w) && old(rqeAvail) > 0)
      ensures queue == old(queue) + Queued(qp, w, old(rqeAvail) > 0)
      ensures posted == if IsMessage(w) && old(rqeAvail) > 0 then old(posted) - {Rslot(qp, w.slot)} else old(posted)
    {
      hide SendInv, RingHolds, RecvInv, RingOf;
      match w
      case SendDone(slot) => PollSend(slot);
      case RecvDone(slot, valid, length) => PollRecv(Rslot(qp, slot), valid, length);
    }

    /** One completion of pair qp is polled and handled; `rest` was left of `cqs`. */
    method PollOne(rest: seq<seq<Wc>>, qp: nat, ghost cqs: seq<seq<Wc>>, ghost avail: int, ghost queue0: seq<Dmsg>,
                   ghost sending0: set<nat>, ghost slots0: seq<Slot>) returns (rest': seq<seq<Wc>>)
      requires Valid() && |rest| == qps && qp < qps && rest[qp] != [] && CqsOk(rest, sending, posted)
      requires Polled(cqs, avail, queue0, rest, sqeAvail, queue, rqeAvail)
      requires Kept(slots0, slots) && SendsDone(cqs, rest, sending0, sending)
      modifies `smsgFree, `sqeAvail, `slots, `free, `sending, sbuf, `rmsgTail, `rqeAvail, `queue, `posted, dmsg
      ensures Valid() && rest' == rest[qp := rest[qp][1..]] && CqsOk(rest', sending, posted) && sqeAvail >= 0
      ensures Polled(cqs, avail, queue0, rest', sqeAvail, queue, rqeAvail)
      ensures Kept(slots0, slots) && SendsDone(cqs, rest', sending0, sending)
    {
      hide SendInv, RingHolds, RecvInv, CqsOk, Legit, RingOf, Kept, Polled, SendsDone;
      PolledStep(cqs, avail, queue0, rest, sqeAvail, queue, rqeAvail, qp);
      PopOk(rest, sending, posted, qp);
      DoneStep(cqs, rest, sending0, sending, qp);
      ghost var before := slots;
      Handle(qp, rest[qp][0]);
      KeptTwice(slots0, before, slots);
      HeadAddress(sbuf[..], base, slots, smsgFree, sqeAvail, free, sending);
      rest' := rest[qp := rest[qp][1..]];
    }

    /** ds_poll_cqs: completions are polled round robin until the queues run dry,
        or there is no room to receive but a slot to send from; then the next call
        goes on behind the pair polled last. Each send polled frees its slot and no
        other message in flight changes. Of each pair the messages are queued in the
        order announced, all of them while there is room. */
    method PollCqs(cqs: seq<seq<Wc>>) returns (rest: seq<seq<Wc>>)
      requires Valid() && |cqs| == qps && CqsOk(cqs, sending, posted)
      modifies this, sbuf, dmsg
      ensures Valid() && |rest| == qps == old(qps) && CqsOk(rest, sending, posted) && Kept(old(slots), slots)
      ensures (rqeAvail == 0 && sqeAvail > 0) || forall q :: 0 <= q < qps ==> rest[q] == []
      ensures sqeAvail + Sum(IsSend, rest) == old(sqeAvail) + Sum(IsSend, cqs)
      ensures old(queue) <= queue && AllPolled(cqs, rest, queue[|old(queue)|..], rqeAvail > 0)
      ensures |queue| + Sum(IsMessage, rest) <= |old(queue)| + Sum(IsMessage, cqs)
      ensures rqeAvail > 0 ==> |queue| + Sum(IsMessage, rest) == |old(queue)| + Sum(IsMessage, cqs)
      ensures SendsDone(cqs, rest, old(sending), sending)
      ensures exists rounds: nat, k: nat ::
        RoundRobin(cqs, rest, old(qpList), rounds, k) && qpList == old(qpList)[k..] + old(qpList)[..k]
    {
      hide SendInv, RingHolds, RecvInv, CqsOk, Legit, Sum, RingOf, AllPolled, Kept, Polled, RoundRobin, SendsDone;
      rest := cqs;
      RingSize(qps, qpList);
      KeptAll(slots);
      PollStart(cqs, sqeAvail, queue, rqeAvail, qps, qpList, sending);
      if qps == 0 {
        PolledMeans(cqs, sqeAvail, queue, rest, sqeAvail, queue, rqeAvail);
        return;
      }
      ghost var ring, rounds: nat := qpList, 0;
      var cnt := 1;
      while cnt != 0
        invariant Valid() && qps == old(qps) && |rest| == qps && qpList == ring && CqsOk(rest, sending, posted)
        invariant cnt >= 0 && (cnt == 0 ==> forall q :: 0 <= q < qps ==> rest[q] == [])
        invariant Polled(cqs, old(sqeAvail), old(queue), rest, sqeAvail, queue, rqeAvail) && Kept(old(slots), slots)
        invariant RoundRobin(cqs, rest, ring, rounds, 0) && SendsDone(cqs, rest, old(sending), sending)
        decreases Sum(Any, rest) + (if cnt != 0 then 1 else 0)
      {
        cnt := 0;
        var qp, seen := qpList[0], 0;
        ghost var total := Sum(Any, rest);
        while seen == 0 || qp != qpList[0]
          invariant Valid() && qps == old(qps) && |rest| == qps && qpList == ring && CqsOk(rest, sending, posted)
          invariant 0 <= seen <= qps && qp == ring[if seen == qps then 0 else seen] && cnt >= 0
          invariant Sum(Any, rest) + cnt == total
          invariant cnt == 0 ==> forall k :: 0 <= k < seen ==> ring[k] < qps && rest[ring[k]] == []
          invariant Polled(cqs, old(sqeAvail), old(queue), rest, sqeAvail, queue, rqeAvail) && Kept(old(slots), slots)
          invariant RoundRobin(cqs, rest, ring, rounds, seen) && SendsDone(cqs, rest, old(sending), sending)
          decreases qps - seen
        {
          RingAt(qps, ring, seen);
          RoundStep(cqs, rest, ring, rounds, seen);
          var stop := false;
          if rest[qp] != [] {
            SumPop(Any, rest, qp);
            rest := PollOne(rest, qp, cqs, old(sqeAvail), old(queue), old(sending), old(slots));
            cnt := cnt + 1;
            stop := rqeAvail == 0 && sqeAvail != 0;
          }
          seen := seen + 1;
          qp := qpList[if seen == qps then 0 else seen];
          if stop {
            Rotated(qps, qpList, seen);
            qpList := qpList[seen..] + qpList[..seen];
            PolledMeans(cqs, old(sqeAvail), old(queue), rest, sqeAvail, queue, rqeAvail);
            return;
          }
        }
        RingDone(qps, ring, seen);
        RoundDone(cqs, rest, ring, rounds);
        rounds := rounds + 1;
        if cnt == 0 {
          AllEmpty(rest, ring);
        }
      }
      PolledMeans(cqs, old(sqeAvail), old(queue), rest, sqeAvail, queue, rqeAvail);
      assert qpList == ring[0..] + ring[..0];
    }

    /** dsend on a non-blocking socket: with no slot free it polls once, and fails
        exactly when no send completion was there either. If header and datagram fit
        a slot, the pool is intact and no other message in flight changes. */
    method Send(hdr: seq<byte>, buf: seq<byte>, cqs: seq<seq<Wc>>) returns (ok: bool, slot: nat, rest: seq<seq<Wc>>)
      requires Valid() && |cqs| == qps && CqsOk(cqs, sending, posted) && hdr != []
      modifies this, sbuf, dmsg
      ensures |rest| == qps == old(qps) && (!ok || |hdr| + |buf| <= SNDLOWAT ==> Valid())
      ensures ok <==> old(sqeAvail) > 0 || Sum(IsSend, cqs) > 0
      ensures ok ==> slot in sending && slot < sqSize && |slots| == sqSize
      ensures ok && |hdr| + |buf| <= SNDLOWAT ==> slots[slot] == Used(hdr + buf) && KeptBut(old(slots), slots, slot)
      ensures old(sqeAvail) > 0 ==>
        && rest == cqs && slot !in old(sending) && sending == old(sending) + {slot}
        && sbuf[..] == Copied(old(sbuf[..]), slot * SNDLOWAT, hdr + buf)
      ensures !ok ==> |sending| == sqSize && forall q :: 0 <= q < qps ==> rest[q] == []
      ensures old(sqeAvail) > 0 ==> queue == old(queue) && posted == old(posted)
      ensures old(queue) <= queue && AllPolled(cqs, rest, queue[|old(queue)|..], rqeAvail > 0)
      ensures |queue| + Sum(IsMessage, rest) <= |old(queue)| + Sum(IsMessage, cqs)
      ensures rqeAvail > 0 ==> |queue| + Sum(IsMessage, rest) == |old(queue)| + Sum(IsMessage, cqs)
      ensures sqeAvail + One(ok) + Sum(IsSend, rest) == old(sqeAvail) + Sum(IsSend, cqs)
    {
      hide RingHolds, RecvInv, CqsOk, Sum, RingOf, Holds, Within, ListOf, AllPolled, RoundRobin, SendsDone;
      ok, slot, rest := true, 0, cqs;
      NonePolled(cqs, rqeAvail > 0);
      assert queue[|queue|..] == [];
      if sqeAvail == 0 {
        rest := PollCqs(cqs);
        HeadAddress(sbuf[..], base, slots, smsgFree, sqeAvail, free, sending);
        if sqeAvail == 0 {
          SumNone(IsSend, rest);
          ok := false;
          return;
        }
      }
      slot := Take(hdr, buf);
    }

    /** ds_recvfrom on a non-blocking socket: the oldest message, after polling once
        if there was none; then it is the first that its pair announced. It fails
        exactly when none came. */
    method RecvFrom(peek: bool, cqs: seq<seq<Wc>>) returns (ok: bool, m: Dmsg, rest: seq<seq<Wc>>)
      requires Valid() && |cqs| == qps && CqsOk(cqs, sending, posted)
      modifies this, sbuf, dmsg
      ensures Valid() && |rest| == qps == old(qps)
      ensures ok <==> old(queue) != [] || (rqSize > 0 && Sum(IsMessage, cqs) > 0)
      ensures ok && old(queue) == [] ==>
        var q := m.at.qp; q < qps && Announced(q, cqs[q]) != [] && m == Announced(q, cqs[q])[0]
      ensures old(queue) != [] ==>
        && rest == cqs && m == old(queue)[0]
        && if peek then queue == old(queue) && posted == old(posted)
           else queue == old(queue)[1..] && posted == old(posted) + {m.at} && m.at !in old(posted)
      ensures ok ==> m.at.qp < qps && m.at.slot < rqSize && (m.at in posted <==> !peek)
      ensures old(queue) == [] ==>
        var all := (if ok && !peek then [m] else []) + queue;
        && AllPolled(cqs, rest, all, |all| < rqSize)
        && |all| + Sum(IsMessage, rest) <= Sum(IsMessage, cqs)
        && (|all| < rqSize ==> |all| + Sum(IsMessage, rest) == Sum(IsMessage, cqs))
        && ((|all| == rqSize && sqeAvail > 0) || forall q :: 0 <= q < qps ==> rest[q] == [])
      ensures Kept(old(slots), slots) && sqeAvail + Sum(IsSend, rest) == old(sqeAvail) + Sum(IsSend, cqs)
    {
      hide SendInv, CqsOk, Sum, RingOf, AllPolled, RoundRobin, SendsDone, Kept;
      KeptAll(slots);
      RingPop(rqSize, dmsg[..], rmsgHead, rmsgTail, queue);
      ok, m, rest := true, Dmsg(Rslot(0, 0), 0), cqs;
      if rmsgHead == rmsgTail {
        rest := PollCqs(cqs);
        RingPop(rqSize, dmsg[..], rmsgHead, rmsgTail, queue);
        if rmsgHead == rmsgTail {
          if rqSize > 0 {
            SumNone(IsMessage, rest);
          }
          ok := false;
          assert [] + queue[0..] == queue;
          return;
        }
        assert queue[0..] == queue;
        FirstAnnounced(cqs, rest, queue, rqeAvail > 0);
      }
      ghost var all := queue;
      m := Pop(peek);
      assert (if peek then [] else [m]) + queue == all;
    }
  }

  /** Every message still in flight is the one it was. */
  predicate Kept(slots: seq<Slot>, slots': seq<Slot>) {
    |slots'| == |slots| && forall i :: 0 <= i < |slots| && slots'[i].Used? ==> slots'[i] == slots[i]
  }

  /** Every one but that in slot `i`. */
  predicate KeptBut(slots: seq<Slot>, slots': seq<Slot>, i: nat) {
    |slots'| == |slots| && forall j :: 0 <= j < |slots| && j != i && slots'[j].Used? ==> slots'[j] == slots[j]
  }

  lemma KeptAll(slots: seq<Slot>)
    ensures Kept(slots, slots)
  {
  }

  lemma KeptTwice(s: seq<Slot>, s': seq<Slot>, s'': seq<Slot>)
    requires Kept(s, s') && Kept(s', s'')
    ensures Kept(s, s'')
  {
  }

  lemma CopiedTwice(mem: seq<byte>, at: nat, p: seq<byte>, q: seq<byte>)
    ensures Copied(Copied(mem, at, p), at + |p|, q) == Copied(mem, at, p + q)
  {
  }

  lemma LinkStep(mem: seq<byte>, base: nat, n: nat, i: nat)
    requires i < n && |mem| == n * SNDLOWAT && base + |mem| < TWO64
    requires forall j :: 0 <= j < i ==> SlotHolds(mem, base, j, AllSlots(n)[j])
    ensures var next := if i + 1 < n then i + 1 else -1;
      var mem' := Copied(mem, i * SNDLOWAT, Encoded(Address(base, next), PTR_SIZE));
      forall j :: 0 <= j <= i ==> SlotHolds(mem', base, j, AllSlots(n)[j])
  {
    var next := if i + 1 < n then i + 1 else -1;
    LinkHolds(mem, base, i, next);
    forall j | 0 <= j < i
      ensures SlotHolds(Copied(mem, i * SNDLOWAT, Encoded(Address(base, next), PTR_SIZE)), base, j, AllSlots(n)[j])
    {
      OthersHold(mem, base, i, Encoded(Address(base, next), PTR_SIZE), j, AllSlots(n)[j]);
    }
  }

  /** What polling has done so far: `rest` is left of `cqs`. */
  ghost predicate Polled(cqs: seq<seq<Wc>>, avail: int, queue: seq<Dmsg>, rest: seq<seq<Wc>>, avail': int,
                         queue': seq<Dmsg>, rqeAvail': int) {
    && avail' + Sum(IsSend, rest) == avail + Sum(IsSend, cqs)
    && queue <= queue' && AllPolled(cqs, rest, queue'[|queue|..], rqeAvail' > 0)
    && |queue'| + Sum(IsMessage, rest) <= |queue| + Sum(IsMessage, cqs)
    && (rqeAvail' > 0 ==> |queue'| + Sum(IsMessage, rest) == |queue| + Sum(IsMessage, cqs))
  }

  lemma PolledStep(cqs: seq<seq<Wc>>, avail: int, queue: seq<Dmsg>, rest: seq<seq<Wc>>, avail': int,
                   queue': seq<Dmsg>, rqeAvail': int, q: nat)
    requires Polled(cqs, avail, queue, rest, avail', queue', rqeAvail') && q < |rest| && rest[q] != []
    ensures var w := rest[q][0];
      Polled(cqs, avail, queue, rest[q := rest[q][1..]], avail' + One(IsSend(w)),
             queue' + Queued(q, w, rqeAvail' > 0), rqeAvail' - One(IsMessage(w) && rqeAvail' > 0))
  {
    hide Sum, AllPolled;
    SumPop(IsSend, rest, q);
    SumPop(IsMessage, rest, q);
    var w := rest[q][0];
    var ms := Queued(q, w, rqeAvail' > 0);
    assert (queue' + ms)[|queue|..] == queue'[|queue|..] + ms;
    PollStep(cqs, rest, queue'[|queue|..], rqeAvail' > 0, q, rqeAvail' - One(IsMessage(w) && rqeAvail' > 0) > 0);
  }

  lemma PolledMeans(cqs: seq<seq<Wc>>, avail: int, queue: seq<Dmsg>, rest: seq<seq<Wc>>, avail': int,
                    queue': seq<Dmsg>, rqeAvail': int)
    requires Polled(cqs, avail, queue, rest, avail', queue', rqeAvail')
    ensures avail' + Sum(IsSend, rest) == avail + Sum(IsSend, cqs)
    ensures queue <= queue' && AllPolled(cqs, rest, queue'[|queue|..], rqeAvail' > 0)
    ensures |queue'| + Sum(IsMessage, rest) <= |queue| + Sum(IsMessage, cqs)
    ensures rqeAvail' > 0 ==> |queue'| + Sum(IsMessage, rest) == |queue| + Sum(IsMessage, cqs)
  {
    hide Sum, AllPolled;
  }

  lemma PollStart(cqs: seq<seq<Wc>>, avail: int, queue: seq<Dmsg>, rqeAvail: int, qps: nat, ring: seq<nat>,
                  sending: set<nat>)
    requires RingOf(qps, ring) && |cqs| == qps
    ensures Polled(cqs, avail, queue, cqs, avail, queue, rqeAvail)
    ensures RoundRobin(cqs, cqs, ring, 0, 0) && ring == ring[0..] + ring[..0]
    ensures SendsDone(cqs, cqs, sending, sending)
  {
    hide Sum, AllPolled;
    NonePolled(cqs, rqeAvail > 0);
    assert queue[|queue|..] == [];
  }

  /** The completion of the send in slot s was polled. */
  ghost predicate DonePolled(cqs: seq<seq<Wc>>, rest: seq<seq<Wc>>, s: nat) {
    |rest| == |cqs|
    && exists q :: 0 <= q < |cqs| && |rest[q]| <= |cqs[q]| && SendDone(s) in cqs[q][..|cqs[q]| - |rest[q]|]
  }

  /** In flight is what was, but for the sends whose completion was polled. */
  ghost predicate SendsDone(cqs: seq<seq<Wc>>, rest: seq<seq<Wc>>, sending: set<nat>, sending': set<nat>) {
    && |rest| == |cqs|
    && (forall q :: 0 <= q < |cqs| ==> |rest[q]| <= |cqs[q]| && rest[q] == cqs[q][|cqs[q]| - |rest[q]|..])
    && forall s: nat :: s in sending' <==> s in sending && !DonePolled(cqs, rest, s)
  }

  lemma DoneStep(cqs: seq<seq<Wc>>, rest: seq<seq<Wc>>, sending: set<nat>, sending': set<nat>, q: nat)
    requires SendsDone(cqs, rest, sending, sending') && q < |rest| && rest[q] != []
    ensures var w := rest[q][0];
      SendsDone(cqs, rest[q := rest[q][1..]], sending, if w.SendDone? then sending' - {w.slot} else sending')
  {
    hide SendsDone;
    DoneShape(cqs, rest, sending, sending');
    var w, rest' := rest[q][0], rest[q := rest[q][1..]];
    forall s: nat
      ensures DonePolled(cqs, rest', s) <==> DonePolled(cqs, rest, s) || w == SendDone(s)
    {
      DoneMore(cqs, rest, q, s);
    }
    DoneMade(cqs, rest', sending, if w.SendDone? then sending' - {w.slot} else sending');
  }

  lemma DoneShape(cqs: seq<seq<Wc>>, rest: seq<seq<Wc>>, sending: set<nat>, sending': set<nat>)
    requires SendsDone(cqs, rest, sending, sending')
    ensures |rest| == |cqs|
    ensures forall q :: 0 <= q < |cqs| ==> |rest[q]| <= |cqs[q]| && rest[q] == cqs[q][|cqs[q]| - |rest[q]|..]
    ensures forall s: nat :: s in sending' <==> s in sending && !DonePolled(cqs, rest, s)
  {
  }

  lemma DoneMade(cqs: seq<seq<Wc>>, rest: seq<seq<Wc>>, sending: set<nat>, sending': set<nat>)
    requires |rest| == |cqs|
    requires forall q :: 0 <= q < |cqs| ==> |rest[q]| <= |cqs[q]| && rest[q] == cqs[q][|cqs[q]| - |rest[q]|..]
    requires forall s: nat :: s in sending' <==> s in sending && !DonePolled(cqs, rest, s)
    ensures SendsDone(cqs, rest, sending, sending')
  {
  }

  lemma DoneMore(cqs: seq<seq<Wc>>, rest: seq<seq<Wc>>, q: nat, s: nat)
    requires |rest| == |cqs| && q < |rest| && rest[q] != []
    requires forall p :: 0 <= p < |cqs| ==> |rest[p]| <= |cqs[p]| && rest[p] == cqs[p][|cqs[p]| - |rest[p]|..]
    ensures DonePolled(cqs, rest[q := rest[q][1..]], s) <==> DonePolled(cqs, rest, s) || rest[q][0] == SendDone(s)
  {
    var rest' := rest[q := rest[q][1..]];
    var n := |cqs[q]| - |rest[q]|;
    assert cqs[q][..n + 1] == cqs[q][..n] + [rest[q][0]];
    if DonePolled(cqs, rest, s) {
      var p :| 0 <= p < |cqs| && |rest[p]| <= |cqs[p]| && SendDone(s) in cqs[p][..|cqs[p]| - |rest[p]|];
      assert SendDone(s) in cqs[p][..|cqs[p]| - |rest'[p]|];
    }
    if rest[q][0] == SendDone(s) {
      assert SendDone(s) in cqs[q][..|cqs[q]| - |rest'[q]|];
    }
    if DonePolled(cqs, rest', s) {
      var p :| 0 <= p < |cqs| && |rest'[p]| <= |cqs[p]| && SendDone(s) in cqs[p][..|cqs[p]| - |rest'[p]|];
      assert p != q ==> SendDone(s) in cqs[p][..|cqs[p]| - |rest[p]|];
      assert p == q && rest[q][0] != SendDone(s) ==> SendDone(s) in cqs[q][..n];
    }
  }

  /** After `rounds` rounds and the first k pairs of another one: of each pair as many
      completions are polled as rounds have passed it, or all it had. */
  ghost predicate RoundRobin(cqs: seq<seq<Wc>>, rest: seq<seq<Wc>>, ring: seq<nat>, rounds: nat, k: nat) {
    && RingOf(|cqs|, ring) && |rest| == |cqs| && k <= |ring|
    && forall j :: 0 <= j < |ring| ==>
         |cqs[ring[j]]| - |rest[ring[j]]| == Least(|cqs[ring[j]]|, if j < k then rounds + 1 else rounds)
  }

  function Least(x: nat, y: nat): nat {
    if x < y then x else y
  }

  lemma RoundStep(cqs: seq<seq<Wc>>, rest: seq<seq<Wc>>, ring: seq<nat>, rounds: nat, k: nat)
    requires RoundRobin(cqs, rest, ring, rounds, k) && k < |ring| && ring[k] < |rest|
    ensures var q := ring[k];
      RoundRobin(cqs, if rest[q] == [] then rest else rest[q := rest[q][1..]], ring, rounds, k + 1)
  {
    var q := ring[k];
    var rest' := if rest[q] == [] then rest else rest[q := rest[q][1..]];
    forall j | 0 <= j < |ring|
      ensures |cqs[ring[j]]| - |rest'[ring[j]]| == Least(|cqs[ring[j]]|, if j < k + 1 then rounds + 1 else rounds)
    {
      assert j != k ==> ring[j] != q;
    }
  }

  lemma RoundDone(cqs: seq<seq<Wc>>, rest: seq<seq<Wc>>, ring: seq<nat>, rounds: nat)
    requires RoundRobin(cqs, rest, ring, rounds, |cqs|)
    ensures RoundRobin(cqs, rest, ring, rounds + 1, 0)
  {
  }

  /** So no pair waits while another is polled twice. */
  lemma FairlyPolled(cqs: seq<seq<Wc>>, rest: seq<seq<Wc>>, ring: seq<nat>, rounds: nat, k: nat, p: nat, q: nat)
    requires RoundRobin(cqs, rest, ring, rounds, k) && p < |cqs| && q < |cqs| && rest[p] != []
    ensures |cqs[q]| - |rest[q]| <= |cqs[p]| - |rest[p]| + 1
  {
    assert p in ring && q in ring;
    var i :| 0 <= i < |ring| && ring[i] == p;
    var j :| 0 <= j < |ring| && ring[j] == q;
    assert |cqs[ring[i]]| - |rest[ring[i]]| == Least(|cqs[p]|, if i < k then rounds + 1 else rounds);
    assert |cqs[ring[j]]| - |rest[ring[j]]| == Least(|cqs[q]|, if j < k then rounds + 1 else rounds);
  }

  // ---- the ring of queue pairs ----

  /** Every queue pair is in the ring once. */
  ghost predicate RingOf(qps: nat, ring: seq<nat>) {
    && |ring| == qps && Distinct(ring) && (forall k :: 0 <= k < |ring| ==> ring[k] < qps)
    && (forall q: nat :: q < qps ==> q in ring)
  }

  lemma RingSize(qps: nat, ring: seq<nat>)
    requires RingOf(qps, ring)
    ensures |ring| == qps
  {
  }

  lemma RingAt(qps: nat, ring: seq<nat>, k: nat)
    requires RingOf(qps, ring) && k <= qps && qps > 0 && (k == 0 || ring[if k == qps then 0 else k] != ring[0])
    ensures k < qps && ring[k] < qps
  {
  }

  /** Coming back to the first queue pair means that the round is complete. */
  lemma RingDone(qps: nat, ring: seq<nat>, k: nat)
    requires RingOf(qps, ring) && 0 < k <= qps && ring[if k == qps then 0 else k] == ring[0]
    ensures k == qps
  {
  }

  lemma Rotated(qps: nat, ring: seq<nat>, k: nat)
    requires RingOf(qps, ring) && k <= qps
    ensures RingOf(qps, ring[k..] + ring[..k])
  {
    var ring' := ring[k..] + ring[..k];
    forall q: nat | q < qps
      ensures q in ring'
    {
      assert q in ring;
      assert ring == ring[..k] + ring[k..];
    }
  }

  lemma RingAdd(qps: nat, ring: seq<nat>)
    requires RingOf(qps, ring)
    ensures RingOf(qps + 1, [qps] + ring)
  {
    forall q: nat | q < qps + 1
      ensures q in [qps] + ring
    {
      assert q < qps ==> q in ring;
    }
  }

  /** A full round visits every queue pair. */
  lemma AllEmpty(cqs: seq<seq<Wc>>, ring: seq<nat>)
    requires RingOf(|cqs|, ring) && forall k :: 0 <= k < |cqs| ==> ring[k] < |cqs| && cqs[ring[k]] == []
    ensures forall q :: 0 <= q < |cqs| ==> cqs[q] == []
  {
    forall q: nat | q < |cqs|
      ensures cqs[q] == []
    {
      assert q in ring;
    }
  }
}
