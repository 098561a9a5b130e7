/** rshutdown on both sides: when a connection ends for both of them. */
module Shutdown {
  import opened Common
  import opened Wire
  import opened EndpointOps
  import opened SendQueue
  import opened Channel
  import opened ChannelSteps
  import opened Protocol
  import opened ProtocolInv
  import opened Runs
  import opened Theorems

  ghost predicate HasId(q: seq<Wr>, id: nat) {
    exists i :: 0 <= i < |q| && q[i].id == id
  }

  predicate CloseWr(w: Wr) {
    w.msg.Some? && IsClose(w.msg.value)
  }

  /** A close message is still on its way to the peer. */
  ghost predicate CloseOnWay(l: Link) {
    || (exists i :: 0 <= i < |l.inFlight| && CloseWr(l.inFlight[i]))
    || (exists i :: 0 <= i < |l.arrived| && IsClose(l.arrived[i]))
  }

  /** How far a node's shutdown has come. A node that posted a close message, or
      is about to, no longer writes. One that polled its peer's and is still
      connected was writing then: it no longer reads, so that all it can post is a
      DISCONNECT, and if it did, that is outstanding. A posted close message is on
      its way until the peer has polled it. */
  ghost predicate ShutInv(n: Node, peer: Node) {
    && (n.h.m.closeAt.Some? || n.pending.Some? ==> !n.ep.st.writable)
    && (!n.ep.st.connected ==> !n.ep.st.readable && !n.ep.st.writable)
    && (n.pending.Some? ==> n.pending == Some(CTRL_DISCONNECT) || n.pending == Some(CTRL_SHUTDOWN))
    && (n.pending == Some(CTRL_SHUTDOWN) && n.ep.st.connected ==> n.ep.st.readable)
    && (n.ep.st.connected && peer.h.m.closeSeen ==>
          !n.ep.st.readable && (n.h.m.closeAt.Some? ==> HasId(n.link.Out(), DISCONNECT_ID)))
    && (n.h.m.closeAt.Some? && !n.h.m.closeSeen ==> CloseOnWay(n.link))
  }

  ghost predicate BothShutInv(s: System) {
    ShutInv(s.a, s.b) && ShutInv(s.b, s.a)
  }

  /** What of a node its shutdown depends on, unchanged but for more requests. */
  ghost predicate StillShut(n: Node, n': Node) {
    && n'.ep.st == n.ep.st && n'.pending == n.pending
    && n'.h.m.closeAt == n.h.m.closeAt && n'.h.m.closeSeen == n.h.m.closeSeen
    && n'.link.acked == n.link.acked && n.link.inFlight <= n'.link.inFlight && n'.link.arrived == n.link.arrived
  }

  lemma StillShutInv(n: Node, n': Node, peer: Node, peer': Node)
    requires ShutInv(n, peer) && StillShut(n, n') && peer'.h.m.closeSeen == peer.h.m.closeSeen
    ensures ShutInv(n', peer')
  {
    if HasId(n.link.Out(), DISCONNECT_ID) {
      var i :| 0 <= i < |n.link.Out()| && n.link.Out()[i].id == DISCONNECT_ID;
      assert n'.link.Out()[i] == n.link.Out()[i];
    }
    if CloseOnWay(n.link) {
      if j :| 0 <= j < |n.link.inFlight| && CloseWr(n.link.inFlight[j]) {
        assert n'.link.inFlight[j] == n.link.inFlight[j];
      }
    }
  }

  /** Posting a control message with writing shut down. */
  lemma PostCtrlShut(n: Node, ctrl: nat, peer: Node)
    requires ShutInv(n.(pending := None), peer)
    requires !n.ep.st.writable && n.ep.st.connected
    requires ctrl == CTRL_DISCONNECT || (ctrl == CTRL_SHUTDOWN && n.ep.st.readable)
    ensures ShutInv(PostCtrl(n, ctrl), peer)
  {
    var n' := PostCtrl(n, ctrl);
    var last := |n.link.inFlight|;
    MsgRoundTrip(OP_CTRL, ctrl);
    assert n'.link.inFlight[last] == PostMsg(MsgSet(OP_CTRL, ctrl));
    assert CloseWr(n'.link.inFlight[last]);
    assert n'.link.Out()[|n.link.acked| + last] == n'.link.inFlight[last];
  }

  lemma ShutdownShut(s: System, how: How)
    requires BothShutInv(s) && Enabled(s, Shutdown(how))
    ensures BothShutInv(Step(s, Shutdown(how)))
  {
    var st := ShutState(s.a.ep.st, how);
    var n := s.a.(ep := s.a.ep.(st := st), readShut := s.a.readShut || how != ShutWr);
    var ctrl := ShutCtrl(st, how);
    assert ShutInv(n, s.b);
  }

  lemma UpdatedShut(s: System)
    requires BothShutInv(s) && CanGive(s.a.ep)
    ensures BothShutInv(Updated(s)) && Updated(s).a.ep.st == s.a.ep.st && Updated(s).a.pending == s.a.pending
  {
    var s1 := Updated(s);
    StillShutInv(s.a, s1.a, s.b, s1.b);
    StillShutInv(s.b, s1.b, s.a, s1.a);
  }

  lemma ResumeShut(s: System)
    requires BothShutInv(s) && Enabled(s, Resume)
    ensures BothShutInv(Step(s, Resume))
  {
    hide Updated;
    UpdatedShut(s);
  }

  lemma CloseShut(s: System)
    requires BothShutInv(s) && Enabled(s, Close)
    ensures BothShutInv(Step(s, Close))
  {
    assert ShutInv(s.a.(pending := None), s.b);
    if EntryLeft(s.a.ep) {
      PostCtrlShut(s.a, s.a.pending.value, s.b);
    }
  }

  lemma DeliverShut(s: System)
    requires BothShutInv(s) && Enabled(s, Deliver)
    ensures BothShutInv(Step(s, Deliver))
  {
    var n, n' := s.a, Step(s, Deliver).a;
    var w := n.link.inFlight[0];
    assert n'.link.Out() == n.link.Out();
    if i :| 0 <= i < |n.link.inFlight| && CloseWr(n.link.inFlight[i]) {
      if i == 0 {
        assert n'.link.arrived[|n.link.arrived|] == w.msg.value;
      } else {
        assert n'.link.inFlight[i - 1] == n.link.inFlight[i];
      }
    }
    if i :| 0 <= i < |n.link.arrived| && IsClose(n.link.arrived[i]) {
      assert n'.link.arrived[i] == n.link.arrived[i];
    }
    assert Step(s, Deliver).b.link == s.b.link;
  }

  lemma CompleteShut(s: System)
    requires BothShutInv(s) && Enabled(s, Complete)
    ensures BothShutInv(Step(s, Complete))
  {
    var n, n' := s.a, Step(s, Complete).a;
    MsgRoundTrip(OP_CTRL, CTRL_DISCONNECT);
    if i :| 0 <= i < |n.link.Out()| && n.link.Out()[i].id == DISCONNECT_ID {
      if i > 0 {
        assert n'.link.Out()[i - 1] == n.link.Out()[i];
      }
    }
  }

  lemma PollShut(s: System)
    requires BothShutInv(s) && Enabled(s, Poll)
    ensures BothShutInv(Step(s, Poll))
  {
    var n, n' := s.b, Step(s, Poll).b;
    assert n'.link.Out() == n.link.Out();
    if i :| 0 <= i < |n.link.arrived| && IsClose(n.link.arrived[i]) {
      if i > 0 {
        assert n'.link.arrived[i - 1] == n.link.arrived[i];
      }
    }
    assert Step(s, Poll).a.link == s.a.link;
  }

  lemma StepShut(s: System, act: Act)
    requires BothShutInv(s) && Enabled(s, act)
    ensures BothShutInv(Step(s, act))
  {
    match act
    case Shutdown(how) => ShutdownShut(s, how);
    case Resume => ResumeShut(s);
    case Close => CloseShut(s);
    case Deliver => DeliverShut(s);
    case Complete => CompleteShut(s);
    case Poll => PollShut(s);
    case _ =>
      var s' := Step(s, act);
      StillShutInv(s.a, s'.a, s.b, s'.b);
      StillShutInv(s.b, s'.b, s.a, s'.a);
  }

  lemma {:induction false} RunShut(ca: Config, cb: Config, evs: seq<Event>, s: System)
    requires Run(ca, cb, evs) == Some(s)
    ensures BothShutInv(s)
  {
    hide ShutInv, Step, Enabled;
    if evs == [] {
      InitShut(ca, cb);
    } else {
      var n := |evs| - 1;
      RunShut(ca, cb, evs[..n], Run(ca, cb, evs[..n]).value);
      StepShut(View(Run(ca, cb, evs[..n]).value, evs[n].side), evs[n].act);
    }
  }

  lemma InitShut(ca: Config, cb: Config)
    ensures BothShutInv(Init(ca, cb))
  {
  }

  // ---- when both sides end ----

  /** Everything posted was delivered, polled and completed. */
  ghost predicate Settled(v: System) {
    v.a.link == Link([], [], []) && v.b.link == Link([], [], [])
  }

  /** Once both sides have posted a close message, crossing or not and whatever else
      of rshutdown was dropped, both end up disconnected. */
  lemma BothClose(ca: Config, cb: Config, evs: seq<Event>, side: Side, v: System)
    requires Reaches(ca, cb, evs, side, v) && Settled(v)
    requires BeforeClose(ca, cb, evs, side).Some? && BeforeClose(ca, cb, evs, Other(side)).Some?
    ensures !v.a.ep.st.connected && !v.b.ep.st.connected
  {
    RunRecords(ca, cb, evs, side, v);
    RunRecords(ca, cb, evs, Other(side), Swap(v));
    RunShut(ca, cb, evs, View(v, side));
  }

  /** A node that never shut down reading and whose peer never posted a close
      message is still connected. */
  lemma StillConnected(ca: Config, cb: Config, evs: seq<Event>, side: Side, v: System)
    requires Reaches(ca, cb, evs, side, v) && KeepsReading(evs, Other(side))
    requires BeforeClose(ca, cb, evs, side).None?
    ensures v.b.ep.st.connected && v.b.ep.st.readable
  {
    hide DirInv, QueueInv, Run;
    RunInv(ca, cb, evs, side, v);
    RunShut(ca, cb, evs, View(v, side));
    RunRecords(ca, cb, evs, side, v);
    ReadShutRecorded(ca, cb, evs, View(v, side), Other(side));
    ClosePosted(v);
  }

  lemma ClosePosted(v: System)
    requires Inv(v)
    ensures v.a.h.m.closeSeen ==> v.a.h.m.closeAt.Some?
  {
  }

  /** The test that decides whether rshutdown posts its message: at its end, whatever
      other threads did since it last looked, a control entry is free. */
  ghost predicate FoundEntry(v: System, act: Act) {
    act.Close? && EntryLeft(v.a.ep)
  }

  ghost predicate ServedAt(ca: Config, cb: Config, evs: seq<Event>, side: Side, i: nat)
    requires i < |evs|
  {
    && evs[i].side == side && Run(ca, cb, evs[..i]).Some?
    && FoundEntry(View(Run(ca, cb, evs[..i]).value, side), evs[i].act)
  }

  /** Some rshutdown of `side` found an entry. */
  ghost predicate Served(ca: Config, cb: Config, evs: seq<Event>, side: Side) {
    exists i :: 0 <= i < |evs| && ServedAt(ca, cb, evs, side, i)
  }

  lemma ServedNow(ca: Config, cb: Config, evs: seq<Event>, side: Side)
    requires evs != [] && Run(ca, cb, evs).Some? && KeepsReading(evs, side)
    ensures var n := |evs| - 1; var s := Run(ca, cb, evs[..n]).value;
      evs[n].side == side && PostsClose(View(s, side), evs[n].act) <==> ServedAt(ca, cb, evs, side, n)
  {
    var n := |evs| - 1;
    RunShut(ca, cb, evs[..n], Run(ca, cb, evs[..n]).value);
  }

  lemma ServedBefore(ca: Config, cb: Config, evs: seq<Event>, side: Side, i: nat)
    requires i + 1 < |evs|
    ensures ServedAt(ca, cb, evs[..|evs| - 1], side, i) <==> ServedAt(ca, cb, evs, side, i)
  {
    assert evs[..|evs| - 1][..i] == evs[..i];
  }

  /** With SHUT_WR the only shutdown used, that test decides. */
  lemma {:induction false} ServedCloses(ca: Config, cb: Config, evs: seq<Event>, side: Side)
    requires Run(ca, cb, evs).Some? && KeepsReading(evs, side)
    ensures BeforeClose(ca, cb, evs, side).Some? <==> Served(ca, cb, evs, side)
    decreases |evs|
  {
    hide Run, ServedAt, PostsClose, Sent;
    if evs != [] {
      var n := |evs| - 1;
      RunBefore(ca, cb, evs);
      ServedCloses(ca, cb, evs[..n], side);
      ServedNow(ca, cb, evs, side);
      if i :| 0 <= i < n && ServedAt(ca, cb, evs[..n], side, i) {
        ServedBefore(ca, cb, evs, side, i);
      }
      if i :| 0 <= i < n && ServedAt(ca, cb, evs, side, i) {
        ServedBefore(ca, cb, evs, side, i);
      }
    }
  }

  lemma RunBefore(ca: Config, cb: Config, evs: seq<Event>)
    requires evs != [] && Run(ca, cb, evs).Some?
    ensures Run(ca, cb, evs[..|evs| - 1]).Some?
  {
  }

  /** SHUT_WR on both sides disconnects both exactly when, on each side, a call found
      at its end that the socket was connected and a control entry free. */
  lemma BothShutWrite(ca: Config, cb: Config, evs: seq<Event>, side: Side, v: System)
    requires Reaches(ca, cb, evs, side, v) && Settled(v)
    requires KeepsReading(evs, side) && KeepsReading(evs, Other(side))
    ensures !v.a.ep.st.connected && !v.b.ep.st.connected <==>
      Served(ca, cb, evs, side) && Served(ca, cb, evs, Other(side))
  {
    hide Run, Inv, Served, BeforeClose;
    ServedCloses(ca, cb, evs, side);
    ServedCloses(ca, cb, evs, Other(side));
    if BeforeClose(ca, cb, evs, side).None? {
      StillConnected(ca, cb, evs, side, v);
    } else if BeforeClose(ca, cb, evs, Other(side)).None? {
      StillConnected(ca, cb, evs, Other(side), Swap(v));
    } else {
      BothClose(ca, cb, evs, side, v);
    }
  }

  /** The control entries that a credit update takes. */
  function CreditEntries(e: Endpoint): nat {
    if !GiveCredits(e) then 0 else if e.rx.rbufBytesAvail >= e.cfg.Half() then SqeUse(e.cfg) else 1
  }

  lemma UpdatedUse(s: System)
    requires Inv(s)
    ensures Total(CtrlUse, Updated(s).a.link.Out()) == Total(CtrlUse, s.a.link.Out()) + CreditEntries(s.a.ep)
  {
    hide DirInv, QueueInv;
    var e := s.a.ep;
    if GiveCredits(e) {
      var (e', wrs) := SendCredits(e);
      MsgRoundTrip(OP_SGL, e.rx.rseqNo + e.cfg.rqSize);
      MsgRoundTrip(OP_SGL, 0);
      PostedOut(s.a, e', wrs);
      TotalAppend(CtrlUse, s.a.link.Out(), wrs);
      PairTotals(CtrlUse, wrs);
    }
  }

  /** In numbers: an entry is left exactly when fewer than four are in use. */
  lemma EntryLeftCounts(s: System)
    requires Inv(s)
    ensures EntryLeft(s.a.ep) <==> s.a.ep.st.connected && Total(CtrlUse, s.a.link.Out()) < QP_CTRL_SIZE
  {
    hide DirInv, Total;
    CtrlTests(s.a.ep.cfg, s.a.ep.tx, s.a.link.Out());
  }

  // ---- how a waiting rshutdown loses its message ----

  /** The rest of an rshutdown of node a posts its message, or drops it. */
  lemma ClosePosts(s: System)
    requires Enabled(s, Close) && s.a.pending != Some(CTRL_KEEPALIVE)
    ensures var a' := Step(s, Close).a;
      && a'.pending.None? && a'.ep.st == s.a.ep.st
      && (if EntryLeft(s.a.ep) then
            && a'.link.inFlight == s.a.link.inFlight + [PostMsg(MsgSet(OP_CTRL, s.a.pending.value))]
            && CloseOnWay(a'.link)
          else a'.link == s.a.link && a'.h == s.a.h)
  {
    if EntryLeft(s.a.ep) {
      MsgRoundTrip(OP_CTRL, s.a.pending.value);
      var a' := Step(s, Close).a;
      assert CloseWr(a'.link.inFlight[|s.a.link.inFlight|]);
    }
  }

  /** It is dropped if the peer's SHUTDOWN is polled during the wait, ... */
  lemma WaitingCloseDropped(s: System)
    requires Enabled(s, Poll) && s.a.pending == Some(CTRL_SHUTDOWN) && s.a.waiting && !s.a.ep.st.writable
    requires s.b.link.arrived[0] == MsgSet(OP_CTRL, CTRL_SHUTDOWN)
    ensures var s1 := Step(s, Poll);
      && Enabled(s1, Resume)
      && var s2 := Step(s1, Resume);
      && Enabled(s2, Close)
      && var a := Step(s2, Close).a; !a.ep.st.connected && a.pending.None? && a.link == s.a.link
  {
    MsgRoundTrip(OP_CTRL, CTRL_SHUTDOWN);
  }

  /** ... or if the credit update at the end of the wait takes the entry that came
      free: exactly then, nothing else having happened, a socket that is still
      connected is left without one, ... */
  lemma CreditsTakeEntry(s: System)
    requires Inv(s) && Enabled(s, Resume) && s.a.ep.st.connected && s.a.pending.value <= CTRL_SHUTDOWN
    ensures var s1 := Step(s, Resume);
      && Enabled(s1, Close) && s1.a.ep.st.connected && Step(s1, Close).a.ep.st.connected
      && (!EntryLeft(s1.a.ep) <==> Total(CtrlUse, s.a.link.Out()) + CreditEntries(s.a.ep) == QP_CTRL_SIZE)
  {
    hide DirInv, Updated, Total;
    ResumeInv(s);
    UpdatedInv(s);
    UpdatedUse(s);
    EntryLeftCounts(Step(s, Resume));
    QueueUse(Updated(s).a);
  }

  /** ... or if another thread takes it after rshutdown has looked, waited or not:
      a keepalive does when three are in use, and so does a credit update whenever it
      takes all that are left. */
  lemma OthersTakeEntry(s: System, act: Act)
    requires Inv(s) && Enabled(s, Close) && Enabled(s, act) && (act == Keepalive || act == Credits)
    ensures var s1 := Step(s, act);
      && Enabled(s1, Close) && s1.a.ep.st == s.a.ep.st
      && var taken := if act == Keepalive then 1 else CreditEntries(s.a.ep);
      && (s.a.ep.st.connected ==>
            (!EntryLeft(s1.a.ep) <==> Total(CtrlUse, s.a.link.Out()) + taken == QP_CTRL_SIZE))
  {
    hide DirInv, Total;
    StepInv(s, act);
    EntryLeftCounts(Step(s, act));
    if act == Keepalive {
      KeepaliveUse(s);
    } else {
      UpdatedUse(s);
    }
    QueueUse(Step(s, act).a);
  }

  lemma KeepaliveUse(s: System)
    requires Enabled(s, Keepalive)
    ensures Total(CtrlUse, Step(s, Keepalive).a.link.Out()) == Total(CtrlUse, s.a.link.Out()) + 1
  {
    var (e', wrs) := SendKeepalive(s.a.ep);
    MsgRoundTrip(OP_CTRL, CTRL_KEEPALIVE);
    PostedOut(s.a, e', wrs);
    TotalAppend(CtrlUse, s.a.link.Out(), wrs);
    PairTotals(CtrlUse, wrs);
  }

  lemma QueueUse(n: Node)
    requires QueueInv(n.ep.cfg, n.ep.tx, n.link.Out())
    ensures Total(CtrlUse, n.link.Out()) <= QP_CTRL_SIZE
  {
  }

  // ---- the three modes ----

  /** rshutdown takes away what it is asked to and nothing else. It has a message to
      send unless the socket goes on writing, and that is a SHUTDOWN as long as the
      socket goes on reading. */
  lemma ShutdownModes(s: System, how: How)
    requires Enabled(s, Shutdown(how))
    ensures var a, a' := s.a, Step(s, Shutdown(how)).a;
      && a'.ep == a.ep.(st := a'.ep.st) && a'.link == a.link && a'.ep.st.connected
      && (a'.ep.st.readable <==> a.ep.st.readable && how == ShutWr)
      && (a'.ep.st.writable <==> a.ep.st.writable && how == ShutRd)
      && (a'.pending.Some? <==> !a'.ep.st.writable)
      && (a'.pending.Some? ==> a'.pending.value == if a'.ep.st.readable then CTRL_SHUTDOWN else CTRL_DISCONNECT)
  {
  }

  /** An rshutdown that finds a control entry free and loses it to no one posts its
      close message exactly when the socket no longer writes: a DISCONNECT if it no
      longer reads either. */
  lemma ShutdownMessage(s: System, how: How)
    requires Enabled(s, Shutdown(how)) && CtrlAvail(s.a.ep.tx)
    ensures var s1 := Step(s, Shutdown(how));
      && (Enabled(s1, Close) <==> how != ShutRd || !s.a.ep.st.writable)
      && (Enabled(s1, Close) ==>
            var ctrl := if how == ShutWr && s.a.ep.st.readable then CTRL_SHUTDOWN else CTRL_DISCONNECT;
            Step(s1, Close).a.link.inFlight == s.a.link.inFlight + [PostMsg(MsgSet(OP_CTRL, ctrl))])
  {
    ShutdownModes(s, how);
  }

  /** So in a run: its side has then posted a close message. */
  lemma ShutdownPosts(ca: Config, cb: Config, evs: seq<Event>, side: Side, v: System, how: How)
    requires Run(ca, cb, evs) == Some(View(v, side)) && Enabled(v, Shutdown(how)) && CtrlAvail(v.a.ep.tx)
    requires how != ShutRd || !v.a.ep.st.writable
    ensures var evs' := evs + [Event(side, Shutdown(how))] + [Event(side, Close)];
      Run(ca, cb, evs').Some? && BeforeClose(ca, cb, evs', side).Some?
  {
    hide Transfer, SendIomap, SendDirect, SendCredits, SendKeepalive, PollMsg, PollSend, Land, RecvChunk, CanSend;
    var evs1 := evs + [Event(side, Shutdown(how))];
    Extend(ca, cb, evs, View(v, side), Event(side, Shutdown(how)));
    var s1 := Apply(View(v, side), Event(side, Shutdown(how)));
    Extend(ca, cb, evs1, s1, Event(side, Close));
    assert (evs1 + [Event(side, Close)])[..|evs1|] == evs1;
  }

  lemma Extend(ca: Config, cb: Config, evs: seq<Event>, s: System, ev: Event)
    requires Run(ca, cb, evs) == Some(s) && Can(s, ev)
    ensures Run(ca, cb, evs + [ev]) == Some(Apply(s, ev))
  {
    assert (evs + [ev])[..|evs|] == evs;
  }
}
