/** rshutdown of both directions: one side's DISCONNECT ends the connection for both. */
module Disconnect {
  import opened Common
  import opened Wire
  import opened EndpointOps
  import opened Channel
  import opened ChannelSteps
  import opened Protocol
  import opened ProtocolInv
  import opened Runs
  import opened Shutdown

  /** A DISCONNECT is still on its way to the peer. */
  ghost predicate OnWay(l: Link) {
    || (exists i :: 0 <= i < |l.inFlight| && l.inFlight[i].msg == Some(DISCONNECT_ID))
    || (exists i :: 0 <= i < |l.arrived| && l.arrived[i] == DISCONNECT_ID)
  }

  /** Node n has posted a DISCONNECT: until its completion disconnects n it is
      outstanding, and until it disconnects the peer it is on its way. */
  ghost predicate Ending(n: Node, peer: Node) {
    && (n.ep.st.connected ==> HasId(n.link.Out(), DISCONNECT_ID))
    && (peer.ep.st.connected ==> OnWay(n.link))
  }

  lemma MoreRequests(n: Node, n': Node, peer: Node, peer': Node)
    requires Ending(n, peer)
    requires n'.ep.st.connected ==> n.ep.st.connected
    requires peer'.ep.st.connected ==> peer.ep.st.connected
    requires n'.link.acked == n.link.acked && n.link.inFlight <= n'.link.inFlight && n'.link.arrived == n.link.arrived
    ensures Ending(n', peer')
  {
    if i :| 0 <= i < |n.link.Out()| && n.link.Out()[i].id == DISCONNECT_ID {
      assert n'.link.Out()[i] == n.link.Out()[i];
    }
    if i :| 0 <= i < |n.link.inFlight| && n.link.inFlight[i].msg == Some(DISCONNECT_ID) {
      assert n'.link.inFlight[i] == n.link.inFlight[i];
    }
  }

  lemma DeliverEnding(s: System)
    requires Enabled(s, Deliver) && Ending(s.a, s.b)
    ensures var s' := Step(s, Deliver); Ending(s'.a, s'.b)
  {
    var n, n' := s.a, Step(s, Deliver).a;
    assert n'.link.Out() == n.link.Out();
    if i :| 0 <= i < |n.link.inFlight| && n.link.inFlight[i].msg == Some(DISCONNECT_ID) {
      if i == 0 {
        assert n'.link.arrived[|n.link.arrived|] == DISCONNECT_ID;
      } else {
        assert n'.link.inFlight[i - 1] == n.link.inFlight[i];
      }
    }
    if i :| 0 <= i < |n.link.arrived| && n.link.arrived[i] == DISCONNECT_ID {
      assert n'.link.arrived[i] == DISCONNECT_ID;
    }
  }

  lemma CompleteEnding(s: System)
    requires Enabled(s, Complete) && Ending(s.a, s.b)
    ensures var s' := Step(s, Complete); Ending(s'.a, s'.b)
  {
    var n, n' := s.a, Step(s, Complete).a;
    MsgRoundTrip(OP_CTRL, CTRL_DISCONNECT);
    if i :| 0 <= i < |n.link.Out()| && n.link.Out()[i].id == DISCONNECT_ID {
      if i > 0 {
        assert n'.link.Out()[i - 1] == n.link.Out()[i];
      }
    }
  }

  /** The acting node polls what the other one sent. */
  lemma PollEnding(s: System)
    requires Enabled(s, Poll) && Ending(s.b, s.a)
    ensures var s' := Step(s, Poll); Ending(s'.b, s'.a)
  {
    var n, n' := s.b, Step(s, Poll).b;
    MsgRoundTrip(OP_CTRL, CTRL_DISCONNECT);
    assert n'.link.Out() == n.link.Out();
    if i :| 0 <= i < |n.link.arrived| && n.link.arrived[i] == DISCONNECT_ID {
      if i > 0 {
        assert n'.link.arrived[i - 1] == n.link.arrived[i];
      }
    }
  }

  lemma OwnStep(s: System, act: Act)
    requires Enabled(s, act) && Ending(s.a, s.b)
    ensures var s' := Step(s, act); Ending(s'.a, s'.b)
  {
    match act
    case Deliver => DeliverEnding(s);
    case Complete => CompleteEnding(s);
    case _ => MoreRequests(s.a, Step(s, act).a, s.b, Step(s, act).b);
  }

  lemma PeerStep(s: System, act: Act)
    requires Enabled(s, act) && Ending(s.b, s.a)
    ensures var s' := Step(s, act); Ending(s'.b, s'.a)
  {
    match act
    case Poll => PollEnding(s);
    case _ => MoreRequests(s.b, Step(s, act).b, s.a, Step(s, act).a);
  }

  /** The rest of an rshutdown finds its entry, and its message is a DISCONNECT. */
  ghost predicate Disconnects(v: System, act: Act) {
    act == Close && EntryLeft(v.a.ep) && v.a.pending == Some(CTRL_DISCONNECT)
  }

  lemma CloseEnding(s: System)
    requires Enabled(s, Close) && Disconnects(s, Close)
    ensures var s' := Step(s, Close); Ending(s'.a, s'.b)
  {
    ClosePosts(s);
    var n, n' := s.a, Step(s, Close).a;
    var last := |n.link.inFlight|;
    assert n'.link.inFlight[last] == PostMsg(DISCONNECT_ID);
    assert n'.link.Out()[|n.link.acked| + last] == n'.link.inFlight[last];
  }

  ghost predicate DisconnectsAt(ca: Config, cb: Config, evs: seq<Event>, side: Side, i: nat)
    requires i < |evs|
  {
    && evs[i].side == side && Run(ca, cb, evs[..i]).Some?
    && Disconnects(View(Run(ca, cb, evs[..i]).value, side), evs[i].act)
  }

  lemma {:induction false} RunEnding(ca: Config, cb: Config, evs: seq<Event>, side: Side, v: System, i: nat)
    requires Run(ca, cb, evs) == Some(View(v, side)) && i < |evs| && DisconnectsAt(ca, cb, evs, side, i)
    ensures Ending(v.a, v.b)
    decreases |evs|
  {
    hide Step, Enabled, Ending;
    var n := |evs| - 1;
    var s, ev := Run(ca, cb, evs[..n]).value, evs[n];
    if i == n {
      CloseEnding(View(s, side));
    } else {
      assert evs[..n][..i] == evs[..i];
      RunEnding(ca, cb, evs[..n], side, View(s, side), i);
      if ev.side == side {
        OwnStep(View(s, side), ev.act);
      } else {
        PeerStep(View(s, ev.side), ev.act);
      }
    }
  }

  /** Once a DISCONNECT is posted, by an rshutdown of any mode, both sides end up
      disconnected, whatever else they do and whatever the peer posts. */
  lemma DisconnectEnds(ca: Config, cb: Config, evs: seq<Event>, side: Side, v: System, i: nat)
    requires Run(ca, cb, evs) == Some(View(v, side)) && Settled(v)
    requires i < |evs| && DisconnectsAt(ca, cb, evs, side, i)
    ensures !v.a.ep.st.connected && !v.b.ep.st.connected
  {
    hide Run, DisconnectsAt;
    RunEnding(ca, cb, evs, side, v, i);
  }

  // ---- from the call to its message ----

  /** Event j is the rest of the rshutdown that event i of the same side began. */
  ghost predicate SameCall(evs: seq<Event>, side: Side, i: nat, j: nat) {
    && i < j < |evs| && evs[i].side == side && evs[i].act.Shutdown? && evs[j] == Event(side, Close)
    && forall k :: i < k < j ==> evs[k] != Event(side, Close)
  }

  /** The message decided on stays until then. */
  lemma StepPending(s: System, act: Act)
    requires Enabled(s, act)
    ensures Step(s, act).b.pending == s.b.pending
    ensures s.a.pending.Some? && act != Close ==> Step(s, act).a.pending == s.a.pending
  {
  }

  lemma {:induction false} PendingStays(ca: Config, cb: Config, evs: seq<Event>, side: Side, i: nat, j: nat)
    requires i < j <= |evs| && Run(ca, cb, evs[..i + 1]).Some? && Run(ca, cb, evs[..j]).Some?
    requires View(Run(ca, cb, evs[..i + 1]).value, side).a.pending.Some?
    requires forall k :: i < k < j ==> evs[k] != Event(side, Close)
    ensures View(Run(ca, cb, evs[..j]).value, side).a.pending == View(Run(ca, cb, evs[..i + 1]).value, side).a.pending
    decreases j
  {
    hide Step, Enabled;
    if j > i + 1 {
      var s := Before(ca, cb, evs, j);
      var ev := evs[j - 1];
      PendingStays(ca, cb, evs, side, i, j - 1);
      StepPending(View(s, ev.side), ev.act);
    }
  }

  /** The state before event j - 1. */
  lemma Before(ca: Config, cb: Config, evs: seq<Event>, j: nat) returns (s: System)
    requires 0 < j <= |evs| && Run(ca, cb, evs[..j]).Some?
    ensures Run(ca, cb, evs[..j - 1]) == Some(s) && Can(s, evs[j - 1])
    ensures Run(ca, cb, evs[..j]) == Some(Apply(s, evs[j - 1]))
  {
    assert evs[..j][..j - 1] == evs[..j - 1];
    s := Run(ca, cb, evs[..j - 1]).value;
  }

  lemma {:induction false} RunPrefix(ca: Config, cb: Config, evs: seq<Event>, j: nat)
    requires Run(ca, cb, evs).Some? && j <= |evs|
    ensures Run(ca, cb, evs[..j]).Some?
    decreases |evs|
  {
    if j == |evs| {
      assert evs[..j] == evs;
    } else {
      var n := |evs| - 1;
      RunPrefix(ca, cb, evs[..n], j);
      assert evs[..n][..j] == evs[..j];
    }
  }

  /** A call that leaves the socket neither reading nor writing and at its end finds
      its entry posts a DISCONNECT. */
  lemma CallDisconnects(ca: Config, cb: Config, evs: seq<Event>, side: Side, i: nat, j: nat)
    requires Run(ca, cb, evs).Some? && SameCall(evs, side, i, j) && ServedAt(ca, cb, evs, side, j)
    requires Run(ca, cb, evs[..i + 1]).Some?
    requires var e := View(Run(ca, cb, evs[..i + 1]).value, side).a.ep; !e.st.readable && !e.st.writable
    ensures DisconnectsAt(ca, cb, evs, side, j)
  {
    hide Step, Enabled, Run;
    RunPrefix(ca, cb, evs, j);
    var s := Before(ca, cb, evs, i + 1);
    ShutdownModes(View(s, side), evs[i].act.how);
    PendingStays(ca, cb, evs, side, i, j);
  }

  /** SHUT_RDWR that at its end finds the socket connected and a control entry free
      disconnects both sides. */
  lemma ShutBothEnds(ca: Config, cb: Config, evs: seq<Event>, side: Side, v: System, i: nat, j: nat)
    requires Run(ca, cb, evs) == Some(View(v, side)) && Settled(v)
    requires SameCall(evs, side, i, j) && evs[i].act == Shutdown(ShutRdWr) && ServedAt(ca, cb, evs, side, j)
    ensures !v.a.ep.st.connected && !v.b.ep.st.connected
  {
    hide Step, Enabled, Run, ServedAt, DisconnectsAt;
    RunPrefix(ca, cb, evs, i + 1);
    var s := Before(ca, cb, evs, i + 1);
    ShutdownModes(View(s, side), ShutRdWr);
    CallDisconnects(ca, cb, evs, side, i, j);
    DisconnectEnds(ca, cb, evs, side, v, j);
  }

  /** So do SHUT_WR after SHUT_RD, and SHUT_RD after SHUT_WR: whichever call leaves
      neither direction open. */
  lemma SecondShutEnds(ca: Config, cb: Config, evs: seq<Event>, side: Side, v: System, i: nat, j: nat)
    requires Run(ca, cb, evs) == Some(View(v, side)) && Settled(v)
    requires SameCall(evs, side, i, j) && ServedAt(ca, cb, evs, side, j) && Run(ca, cb, evs[..i]).Some?
    requires var e := View(Run(ca, cb, evs[..i]).value, side).a.ep;
      (evs[i].act == Shutdown(ShutWr) && !e.st.readable) || (evs[i].act == Shutdown(ShutRd) && !e.st.writable)
    ensures !v.a.ep.st.connected && !v.b.ep.st.connected
  {
    hide Step, Enabled, Run, ServedAt, DisconnectsAt;
    RunPrefix(ca, cb, evs, i + 1);
    var s := Before(ca, cb, evs, i + 1);
    ShutdownModes(View(s, side), evs[i].act.how);
    CallDisconnects(ca, cb, evs, side, i, j);
    DisconnectEnds(ca, cb, evs, side, v, j);
  }
}
