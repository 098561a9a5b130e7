/** Progress: from every reachable state, delivering, polling, reading and giving
    credits, with nothing new sent, leads to rest in finitely many steps. */
module Liveness {
  import opened Common
  import opened Wire
  import opened EndpointOps
  import opened Arith
  import opened SendQueue
  import opened Channel
  import opened ChannelSteps
  import opened Protocol
  import opened ProtocolInv
  import opened Runs
  import opened Theorems
  import opened Shutdown

  /** What goes on without the application sending or closing anything. */
  predicate Settling(act: Act) {
    act.Deliver? || act.Complete? || act.Poll? || act.Recv? || act.Credits?
  }

  // ---- the measure ----

  /** Bytes sent and not yet returned. */
  function Unread(n: Node): int {
    |n.h.m.sent| - |n.h.m.recvd|
  }

  function Due(n: Node): nat {
    if CreditsDue(n.ep.rx) then 1 else 0
  }

  /** A request counts for its execution, its completion and its notification. */
  function Load(n: Node): nat {
    3 * |n.link.inFlight| + |n.link.acked| + |n.link.arrived|
  }

  ghost predicate Less(s: System, s': System) {
    var u, u' := Unread(s.a) + Unread(s.b), Unread(s'.a) + Unread(s'.b);
    var g := s.a.ep.rx.rbufBytesAvail + s.b.ep.rx.rbufBytesAvail;
    var g' := s'.a.ep.rx.rbufBytesAvail + s'.b.ep.rx.rbufBytesAvail;
    var d, d' := Due(s.a) + Due(s.b), Due(s'.a) + Due(s'.b);
    var l, l' := Load(s.a) + Load(s.b), Load(s'.a) + Load(s'.b);
    u' < u || (u' == u && (g' < g || (g' == g && (d' < d || (d' == d && l' < l)))))
  }

  lemma Bounded(s: System)
    requires Inv(s)
    ensures Unread(s.a) >= 0 && Unread(s.b) >= 0
    ensures s.a.ep.rx.rbufBytesAvail >= 0 && s.b.ep.rx.rbufBytesAvail >= 0
  {
  }

  /** Giving credits makes no further update due: rq_size is at least 2. */
  lemma NotDueAgain(rseqNo: u16, rqSize: nat)
    requires 2 <= rqSize <= QP_MAX_SIZE
    ensures S16(U16(S16(rseqNo) - S16(U16(rseqNo + rqSize / 2)))) < 0
  {
  }

  lemma CreditsLess(s: System)
    requires Inv(s) && Enabled(s, Credits) && s.a.ep.cfg.rqSize >= 2
    ensures Less(s, Step(s, Credits))
  {
    hide DirInv, QueueInv;
    CreditsGives(s.a.ep);
    NotDueAgain(s.a.ep.rx.rseqNo, s.a.ep.cfg.rqSize);
  }

  lemma RecvLess(s: System, left: nat)
    requires Inv(s) && Enabled(s, Recv(left))
    ensures Less(s, Step(s, Recv(left)))
  {
    var e, m := s.a.ep, s.b.h.m;
    QueueHead(e.cfg, e.rx, m);
    HeadMessage(e.cfg, e.rx, m);
    ChunkFields(e.cfg, e.rx, left);
  }

  lemma DeliverLess(s: System)
    requires Inv(s) && Enabled(s, Deliver)
    ensures Less(s, Step(s, Deliver))
  {
    hide DirInv;
    DeliverNodes(s);
    LandFrame(s.b.ep, s.a.link.inFlight[0]);
  }

  lemma PollLess(s: System)
    requires Inv(s) && Enabled(s, Poll)
    ensures Less(s, Step(s, Poll))
  {
    hide DirInv, QueueInv;
    PollMsgFields(s.a.ep, s.b.link.arrived[0]);
  }

  lemma CompleteLess(s: System)
    requires Inv(s) && Enabled(s, Complete)
    ensures Less(s, Step(s, Complete))
  {
    hide DirInv, QueueInv;
  }

  /** Every settling step makes the measure smaller. */
  lemma SettlingLess(s: System, act: Act)
    requires Inv(s) && Enabled(s, act) && Settling(act) && s.a.ep.cfg.rqSize >= 2
    ensures Less(s, Step(s, act))
  {
    hide Inv, Enabled, Step, Less;
    match act
    case Credits => CreditsLess(s);
    case Recv(left) => RecvLess(s, left);
    case Deliver => DeliverLess(s);
    case Poll => PollLess(s);
    case Complete => CompleteLess(s);
    case _ =>
  }

  // ---- rest ----

  /** No settling step is possible. */
  ghost predicate AtRest(s: System) {
    && s.a.link == Link([], [], []) && s.b.link == Link([], [], [])
    && !HaveRdata(s.a.ep.rx) && !HaveRdata(s.b.ep.rx)
    && !GiveCredits(s.a.ep) && !GiveCredits(s.b.ep)
  }

  lemma NextStep(s: System) returns (ev: Event)
    requires Inv(s) && !AtRest(s)
    ensures Can(s, ev) && Settling(ev.act)
  {
    hide SentWithin, LimitsGiven, SpaceGiven, SpaceUsed, TargetInv, MemInv, OffsetOk, FwdPipe, ArrPipe,
         BwdPipe, ArrLimits, QueueInv, RingInv, StreamInv;
    QueueHead(s.a.ep.cfg, s.a.ep.rx, s.b.h.m);
    QueueHead(s.b.ep.cfg, s.b.ep.rx, s.a.h.m);
    if s.a.link.inFlight != [] {
      ev := Event(SideA, Deliver);
    } else if s.b.link.inFlight != [] {
      ev := Event(SideB, Deliver);
    } else if s.a.link.acked != [] {
      ev := Event(SideA, Complete);
    } else if s.b.link.acked != [] {
      ev := Event(SideB, Complete);
    } else if s.b.link.arrived != [] {
      ev := Event(SideA, Poll);
    } else if s.a.link.arrived != [] {
      ev := Event(SideB, Poll);
    } else if HaveRdata(s.a.ep.rx) {
      ev := Event(SideA, Recv(1));
    } else if HaveRdata(s.b.ep.rx) {
      ev := Event(SideB, Recv(1));
    } else if GiveCredits(s.a.ep) {
      ev := Event(SideA, Credits);
    } else {
      ev := Event(SideB, Credits);
    }
  }

  // ---- runs that come to rest ----

  lemma StepConfig(s: System, act: Act)
    requires Enabled(s, act)
    ensures Step(s, act).a.ep.cfg == s.a.ep.cfg && Step(s, act).b.ep.cfg == s.b.ep.cfg
  {
  }

  lemma {:induction false} RunConfig(ca: Config, cb: Config, evs: seq<Event>, s: System)
    requires Run(ca, cb, evs) == Some(s)
    ensures s.a.ep.cfg == ca && s.b.ep.cfg == cb
  {
    if evs != [] {
      var n := |evs| - 1;
      var r := Run(ca, cb, evs[..n]).value;
      RunConfig(ca, cb, evs[..n], r);
      StepConfig(View(r, evs[n].side), evs[n].act);
    }
  }

  lemma LessView(s: System, ev: Event)
    requires Can(s, ev) && Less(View(s, ev.side), Step(View(s, ev.side), ev.act))
    ensures Less(s, Runs.Apply(s, ev))
  {
  }

  lemma OneMore(ca: Config, cb: Config, evs: seq<Event>, s: System) returns (ev: Event)
    requires ValidConfig(ca) && ValidConfig(cb) && ca.rqSize >= 2 && cb.rqSize >= 2
    requires Run(ca, cb, evs) == Some(s) && !AtRest(s)
    ensures Can(s, ev) && Settling(ev.act) && Run(ca, cb, evs + [ev]) == Some(Runs.Apply(s, ev))
    ensures Inv(s) && Inv(Runs.Apply(s, ev)) && Less(s, Runs.Apply(s, ev))
  {
    hide Inv, Less, AtRest, Step, Enabled;
    RunInv(ca, cb, evs, SideA, s);
    RunConfig(ca, cb, evs, s);
    ev := NextStep(s);
    assert (evs + [ev])[..|evs|] == evs;
    RunInv(ca, cb, evs + [ev], SideA, Runs.Apply(s, ev));
    ViewInv(s, ev.side);
    SettlingLess(View(s, ev.side), ev.act);
    LessView(s, ev);
  }

  predicate AllSettling(evs: seq<Event>) {
    forall i :: 0 <= i < |evs| ==> Settling(evs[i].act)
  }

  lemma {:induction false} Settle(ca: Config, cb: Config, evs: seq<Event>,
                                  s: System) returns (more: seq<Event>, s': System)
    requires ValidConfig(ca) && ValidConfig(cb) && ca.rqSize >= 2 && cb.rqSize >= 2 && Run(ca, cb, evs) == Some(s)
    ensures AllSettling(more) && Run(ca, cb, evs + more) == Some(s') && AtRest(s')
    decreases Unread(s.a) + Unread(s.b), s.a.ep.rx.rbufBytesAvail + s.b.ep.rx.rbufBytesAvail,
              Due(s.a) + Due(s.b), Load(s.a) + Load(s.b)
  {
    hide Inv, AtRest, Run, Can, Runs.Apply;
    if AtRest(s) {
      more, s' := [], s;
      assert evs + more == evs;
    } else {
      var ev := OneMore(ca, cb, evs, s);
      Bounded(s);
      Bounded(Runs.Apply(s, ev));
      more, s' := Settle(ca, cb, evs + [ev], Runs.Apply(s, ev));
      assert evs + ([ev] + more) == evs + [ev] + more;
      more := [ev] + more;
    }
  }

  lemma {:induction false} SentAndIomaps(evs: seq<Event>, more: seq<Event>, side: Side)
    requires AllSettling(more)
    ensures Sent(evs + more, side) == Sent(evs, side) && Iomaps(evs + more, side) == Iomaps(evs, side)
    decreases |more|
  {
    if more == [] {
      assert evs + more == evs;
    } else {
      var n := |more| - 1;
      assert (evs + more)[..|evs| + n] == evs + more[..n];
      SentAndIomaps(evs, more[..n], side);
    }
  }

  /** No settling step is possible. */
  ghost predicate Exhausted(s: System) {
    forall ev: Event :: Settling(ev.act) ==> !Can(s, ev)
  }

  /** That is the same as being at rest. */
  lemma RestExact(s: System)
    requires Inv(s)
    ensures Exhausted(s) <==> AtRest(s)
  {
    if AtRest(s) {
      forall ev: Event | Settling(ev.act)
        ensures !Can(s, ev)
      {
      }
    } else {
      var ev := NextStep(s);
    }
  }

  /** From every reachable state, settling comes to an end. */
  lemma Settles(ca: Config, cb: Config, evs: seq<Event>, side: Side, v: System) returns (more: seq<Event>, v': System)
    requires Reaches(ca, cb, evs, side, v) && ca.rqSize >= 2 && cb.rqSize >= 2
    ensures AllSettling(more) && Reaches(ca, cb, evs + more, side, v') && Exhausted(View(v', side))
  {
    hide Run, Inv, AtRest, Exhausted;
    var s': System;
    more, s' := Settle(ca, cb, evs, View(v, side));
    v' := View(s', side);
    RunInv(ca, cb, evs + more, SideA, s');
    RestExact(s');
  }

  /** However the application reads and the adapters work from a reachable state on,
      once nothing is left for them to do every byte sent has been returned to its
      reader, and the sender can send again unless the connection has ended, its
      own sizes forbid it or iomap messages have used up the credits. (In runs free of
      errors: a side whose rshutdown finds it disconnected also shuts down its queue
      pair in the code, and what the peer then loses to error completions is not seen
      here.) */
  lemma Unblocks(ca: Config, cb: Config, evs: seq<Event>, more: seq<Event>, side: Side, v: System)
    requires Reaches(ca, cb, evs + more, side, v) && AllSettling(more) && Exhausted(View(v, side))
    ensures Received(ca, cb, evs + more, Other(side)) == Sent(evs, side)
    ensures Received(ca, cb, evs + more, side) == Sent(evs, Other(side))
    ensures Shape(v.a.ep) && v.a.h.c.limits != []
    ensures v.b.ep.st.connected ==>
      (CanSend(v.a.ep.cfg, v.a.ep.tx) <==>
         RoomyConfig(v.a.ep.cfg) && Iomaps(evs, side) < LastLimit(v.a.h.c) - v.a.h.m.done)
    ensures var rq := v.b.ep.cfg.rqSize;
      v.b.ep.st.connected && RoomyConfig(v.a.ep.cfg) && Iomaps(evs, side) <= rq - rq / 2 ==>
        CanSend(v.a.ep.cfg, v.a.ep.tx)
  {
    hide Run, Inv, CanSend, Received, Sent, Iomaps, Exhausted;
    RunInv(ca, cb, evs + more, SideA, View(v, side));
    RestExact(View(v, side));
    SentAndIomaps(evs, more, side);
    SentAndIomaps(evs, more, Other(side));
    StreamComplete(ca, cb, evs + more, side, v);
    StreamComplete(ca, cb, evs + more, Other(side), Swap(v));
    RestFacts(ca, cb, evs + more, side, v);
    if v.b.ep.st.connected {
      NoDeadlock(ca, cb, evs + more, side, v);
    }
  }

  lemma RestFacts(ca: Config, cb: Config, evs: seq<Event>, side: Side, v: System)
    requires Reaches(ca, cb, evs, side, v)
    ensures Shape(v.a.ep) && v.a.h.c.limits != []
  {
    RunInv(ca, cb, evs, side, v);
  }

  // ---- both sides end ----

  lemma StepPending(s: System, act: Act)
    requires Enabled(s, act) && Settling(act)
    ensures Step(s, act).a.pending == s.a.pending && Step(s, act).b.pending == s.b.pending && !PostsClose(s, act)
  {
  }

  lemma {:induction false} SettlingKeeps(ca: Config, cb: Config, evs: seq<Event>, s: System, more: seq<Event>,
                                         s': System, side: Side)
    requires Run(ca, cb, evs) == Some(s) && Run(ca, cb, evs + more) == Some(s') && AllSettling(more)
    ensures s'.a.pending == s.a.pending && s'.b.pending == s.b.pending
    ensures BeforeClose(ca, cb, evs + more, side) == BeforeClose(ca, cb, evs, side)
    decreases |more|
  {
    hide Enabled, Step, PostsClose;
    if more == [] {
      assert evs + more == evs;
    } else {
      var n := |more| - 1;
      assert (evs + more)[..|evs| + n] == evs + more[..n];
      var r := Run(ca, cb, evs + more[..n]).value;
      SettlingKeeps(ca, cb, evs, s, more[..n], r, side);
      StepPending(View(r, more[n].side), more[n].act);
    }
  }

  /** Once both sides have posted a close message, the same continuations leave both
      disconnected. (In runs free of errors, as for Unblocks.) */
  lemma BothEnd(ca: Config, cb: Config, evs: seq<Event>, more: seq<Event>, side: Side, v: System)
    requires Run(ca, cb, evs).Some? && Reaches(ca, cb, evs + more, side, v) && AllSettling(more)
    requires Exhausted(View(v, side))
    requires BeforeClose(ca, cb, evs, side).Some? && BeforeClose(ca, cb, evs, Other(side)).Some?
    ensures !v.a.ep.st.connected && !v.b.ep.st.connected
    ensures Received(ca, cb, evs + more, Other(side)) == Sent(evs, side)
    ensures Received(ca, cb, evs + more, side) == Sent(evs, Other(side))
  {
    hide Run, Inv, Received, Sent, Iomaps, BeforeClose, Exhausted, CanSend;
    Unblocks(ca, cb, evs, more, side, v);
    RunInv(ca, cb, evs + more, SideA, View(v, side));
    RestExact(View(v, side));
    var s := Run(ca, cb, evs).value;
    SettlingKeeps(ca, cb, evs, s, more, View(v, side), side);
    SettlingKeeps(ca, cb, evs, s, more, View(v, side), Other(side));
    BothClose(ca, cb, evs + more, side, v);
  }
}
