/** Runs in which SHUT_WR on both sides leaves one of them connected. */
module ShutdownRuns {
  import opened Common
  import opened Wire
  import opened EndpointOps
  import opened Channel
  import opened ChannelSteps
  import opened Protocol
  import opened ProtocolInv
  import opened Runs
  import opened Theorems
  import opened Shutdown
  import opened Liveness

  // ---- a loss is final ----

  /** An ended node that is in no rshutdown stays that way. */
  lemma StepEnded(s: System, act: Act)
    requires Enabled(s, act)
    ensures !s.a.ep.st.connected && s.a.pending.None? ==>
      !Step(s, act).a.ep.st.connected && Step(s, act).a.pending.None? && !PostsClose(s, act)
    ensures Step(s, act).b.ep.st == s.b.ep.st && Step(s, act).b.pending == s.b.pending
  {
  }

  lemma {:induction false} EndedStays(ca: Config, cb: Config, evs: seq<Event>, more: seq<Event>, side: Side,
                                      v: System, v': System)
    requires Run(ca, cb, evs) == Some(View(v, side)) && Run(ca, cb, evs + more) == Some(View(v', side))
    requires !v.a.ep.st.connected && v.a.pending.None?
    ensures !v'.a.ep.st.connected && v'.a.pending.None?
    ensures BeforeClose(ca, cb, evs + more, side) == BeforeClose(ca, cb, evs, side)
    decreases |more|
  {
    hide Enabled, Step, PostsClose;
    if more == [] {
      assert evs + more == evs;
    } else {
      var n := |more| - 1;
      assert (evs + more)[..|evs| + n] == evs + more[..n];
      var r := Run(ca, cb, evs + more[..n]).value;
      EndedStays(ca, cb, evs, more[..n], side, v, View(r, side));
      StepEnded(View(r, more[n].side), more[n].act);
    }
  }

  /** A side that was disconnected before it posted a close message never will post
      one: in every continuation in which its peer does not itself shut down
      reading, the peer stays connected. (Continuations are free of errors. The side
      that ended also shuts down its queue pair in the code, which the peer may come to
      see as an error completion.) */
  lemma LostForGood(ca: Config, cb: Config, evs: seq<Event>, more: seq<Event>, side: Side, v: System, v': System)
    requires Reaches(ca, cb, evs, side, v) && !v.a.ep.st.connected && v.a.pending.None?
    requires BeforeClose(ca, cb, evs, side).None?
    requires Reaches(ca, cb, evs + more, side, v') && KeepsReading(evs + more, Other(side))
    ensures v'.b.ep.st.connected && v'.b.ep.st.readable
  {
    hide Run, BeforeClose;
    EndedStays(ca, cb, evs, more, side, v, v');
    StillConnected(ca, cb, evs + more, side, v');
  }

  // ---- the peer's message is polled during the wait ----

  const KEEPALIVE_WR := PostWrite(NoSource, NoTarget, MsgSet(OP_CTRL, CTRL_KEEPALIVE), Intent(None, 0))

  /** n keepalives. */
  function Keepalives(n: nat): seq<Wr> {
    seq(n, i => KEEPALIVE_WR)
  }

  lemma KeepalivesMove(n: nat, m: nat)
    ensures n > 0 ==> Keepalives(n)[0] == KEEPALIVE_WR && Keepalives(n)[1..] == Keepalives(n - 1)
    ensures Keepalives(m) + [KEEPALIVE_WR] == Keepalives(m + 1)
  {
  }

  /** Node a after `posted` keepalives of which `acked` are executed and `polled`
      more have been polled. */
  function Starved(ca: Config, cb: Config, posted: nat, acked: nat, polled: nat, st: SockState,
                   pending: Option<nat>): Node
    requires acked + polled <= posted <= QP_CTRL_SIZE
  {
    var n := InitNode(ca, cb);
    n.(ep := n.ep.(tx := n.ep.tx.(ctrlSeqno := posted, ctrlMaxSeqno := QP_CTRL_SIZE + polled), st := st),
       link := Link(Keepalives(posted - acked - polled), Keepalives(acked), []),
       pending := pending, waiting := pending.Some?)
  }

  lemma StarvedShape(ca: Config, cb: Config, posted: nat, acked: nat, polled: nat, st: SockState, pending: Option<nat>)
    requires ValidConfig(ca) && ValidConfig(cb) && acked + polled <= posted <= QP_CTRL_SIZE
    ensures Shape(Starved(ca, cb, posted, acked, polled, st, pending).ep)
  {
  }

  /** The run `evs` leads to nodes a and b. */
  ghost predicate Leads(ca: Config, cb: Config, evs: seq<Event>, a: Node, b: Node) {
    Run(ca, cb, evs) == Some(System(a, b))
  }

  lemma LeadsA(ca: Config, cb: Config, evs: seq<Event>, a: Node, b: Node, act: Act, a': Node, b': Node)
    requires Leads(ca, cb, evs, a, b) && Enabled(System(a, b), act) && Step(System(a, b), act) == System(a', b')
    ensures Leads(ca, cb, evs + [Event(SideA, act)], a', b')
  {
    Extend(ca, cb, evs, System(a, b), Event(SideA, act));
  }

  lemma LeadsB(ca: Config, cb: Config, evs: seq<Event>, a: Node, b: Node, act: Act, a': Node, b': Node)
    requires Leads(ca, cb, evs, a, b) && Enabled(System(b, a), act) && Step(System(b, a), act) == System(b', a')
    ensures Leads(ca, cb, evs + [Event(SideB, act)], a', b')
  {
    Extend(ca, cb, evs, System(a, b), Event(SideB, act));
  }

  lemma StarvedPosts(ca: Config, cb: Config, evs: seq<Event>, k: nat, b: Node)
    requires ValidConfig(ca) && ValidConfig(cb) && k < QP_CTRL_SIZE
    requires Leads(ca, cb, evs, Starved(ca, cb, k, 0, 0, CONNECT_RDWR, None), b)
    ensures Leads(ca, cb, evs + [Event(SideA, Keepalive)], Starved(ca, cb, k + 1, 0, 0, CONNECT_RDWR, None), b)
  {
    StarvedShape(ca, cb, k, 0, 0, CONNECT_RDWR, None);
    KeepalivesMove(0, k);
    LeadsA(ca, cb, evs, Starved(ca, cb, k, 0, 0, CONNECT_RDWR, None), b, Keepalive,
           Starved(ca, cb, k + 1, 0, 0, CONNECT_RDWR, None), b);
  }

  lemma StarvedDelivers(ca: Config, cb: Config, evs: seq<Event>, k: nat, st: SockState, pending: Option<nat>, b: Node)
    requires ValidConfig(ca) && ValidConfig(cb) && k < QP_CTRL_SIZE
    requires Leads(ca, cb, evs, Starved(ca, cb, QP_CTRL_SIZE, k, 0, st, pending), b)
    ensures Leads(ca, cb, evs + [Event(SideA, Deliver)], Starved(ca, cb, QP_CTRL_SIZE, k + 1, 0, st, pending), b)
  {
    StarvedShape(ca, cb, QP_CTRL_SIZE, k, 0, st, pending);
    KeepalivesMove(QP_CTRL_SIZE - k, k);
    LeadsA(ca, cb, evs, Starved(ca, cb, QP_CTRL_SIZE, k, 0, st, pending), b, Deliver,
           Starved(ca, cb, QP_CTRL_SIZE, k + 1, 0, st, pending), b);
  }

  lemma StarvedCompletes(ca: Config, cb: Config, evs: seq<Event>, n: nat, k: nat, st: SockState, pending: Option<nat>,
                         b: Node)
    requires ValidConfig(ca) && ValidConfig(cb) && k < n <= QP_CTRL_SIZE
    requires Leads(ca, cb, evs, Starved(ca, cb, QP_CTRL_SIZE, n - k, k, st, pending), b)
    ensures Leads(ca, cb, evs + [Event(SideA, Complete)],
                  Starved(ca, cb, QP_CTRL_SIZE, n - k - 1, k + 1, st, pending), b)
  {
    StarvedShape(ca, cb, QP_CTRL_SIZE, n - k, k, st, pending);
    KeepalivesMove(n - k, k);
    MsgRoundTrip(OP_CTRL, CTRL_KEEPALIVE);
    LeadsA(ca, cb, evs, Starved(ca, cb, QP_CTRL_SIZE, n - k, k, st, pending), b, Complete,
           Starved(ca, cb, QP_CTRL_SIZE, n - k - 1, k + 1, st, pending), b);
  }

  /** Only side a acts, and shuts nothing down. */
  predicate OwnAndPlain(evs: seq<Event>) {
    forall i :: 0 <= i < |evs| ==> evs[i].side == SideA && !evs[i].act.Shutdown? && !evs[i].act.Resume?
  }

  lemma NothingYet(ca: Config, cb: Config)
    ensures Leads(ca, cb, [], Starved(ca, cb, 0, 0, 0, CONNECT_RDWR, None), InitNode(cb, ca))
  {
    assert Starved(ca, cb, 0, 0, 0, CONNECT_RDWR, None) == InitNode(ca, cb);
  }

  lemma {:induction false} Exhaust(ca: Config, cb: Config, k: nat) returns (evs: seq<Event>)
    requires ValidConfig(ca) && ValidConfig(cb) && k <= QP_CTRL_SIZE
    ensures OwnAndPlain(evs) && Leads(ca, cb, evs, Starved(ca, cb, k, 0, 0, CONNECT_RDWR, None), InitNode(cb, ca))
  {
    hide Run, Leads;
    if k == 0 {
      evs := [];
      NothingYet(ca, cb);
    } else {
      evs := Exhaust(ca, cb, k - 1);
      StarvedPosts(ca, cb, evs, k - 1, InitNode(cb, ca));
      evs := evs + [Event(SideA, Keepalive)];
    }
  }

  /** The first k keepalives are delivered, and then completed. */
  lemma {:induction false} DeliverFirst(ca: Config, cb: Config, evs: seq<Event>, k: nat, st: SockState,
                                        pending: Option<nat>, b: Node) returns (more: seq<Event>)
    requires ValidConfig(ca) && ValidConfig(cb) && k <= QP_CTRL_SIZE
    requires Leads(ca, cb, evs, Starved(ca, cb, QP_CTRL_SIZE, 0, 0, st, pending), b)
    ensures OwnAndPlain(more) && Leads(ca, cb, evs + more, Starved(ca, cb, QP_CTRL_SIZE, k, 0, st, pending), b)
  {
    hide Run;
    if k == 0 {
      more := [];
      assert evs + more == evs;
    } else {
      more := DeliverFirst(ca, cb, evs, k - 1, st, pending, b);
      StarvedDelivers(ca, cb, evs + more, k - 1, st, pending, b);
      assert evs + more + [Event(SideA, Deliver)] == evs + (more + [Event(SideA, Deliver)]);
      more := more + [Event(SideA, Deliver)];
    }
  }

  lemma {:induction false} CompleteFirst(ca: Config, cb: Config, evs: seq<Event>, n: nat, k: nat, st: SockState,
                                         pending: Option<nat>, b: Node) returns (more: seq<Event>)
    requires ValidConfig(ca) && ValidConfig(cb) && k <= n <= QP_CTRL_SIZE
    requires Leads(ca, cb, evs, Starved(ca, cb, QP_CTRL_SIZE, n, 0, st, pending), b)
    ensures OwnAndPlain(more) && Leads(ca, cb, evs + more, Starved(ca, cb, QP_CTRL_SIZE, n - k, k, st, pending), b)
  {
    hide Run;
    if k == 0 {
      more := [];
      assert evs + more == evs;
    } else {
      more := CompleteFirst(ca, cb, evs, n, k - 1, st, pending, b);
      StarvedCompletes(ca, cb, evs + more, n, k - 1, st, pending, b);
      assert evs + more + [Event(SideA, Complete)] == evs + (more + [Event(SideA, Complete)]);
      more := more + [Event(SideA, Complete)];
    }
  }

  const WRITE_SHUT := SockState(true, true, false, false)
  const SHUTDOWN_MSG := MsgSet(OP_CTRL, CTRL_SHUTDOWN)

  /** Node b after its SHUT_WR, with its close message at `link`. */
  function Closer(cb: Config, ca: Config, polled: nat, link: Link, seen: bool): Node
    requires polled <= 1
  {
    var n := InitNode(cb, ca);
    n.(ep := n.ep.(tx := n.ep.tx.(ctrlSeqno := 1, ctrlMaxSeqno := QP_CTRL_SIZE + polled), st := WRITE_SHUT),
       link := link, h := n.h.(m := n.h.m.(closeAt := Some(0), closeSeen := seen)))
  }

  lemma CloserShape(cb: Config, ca: Config, polled: nat, link: Link, seen: bool)
    requires ValidConfig(ca) && ValidConfig(cb) && polled <= 1
    ensures Shape(Closer(cb, ca, polled, link, seen).ep) && Shape(InitNode(cb, ca).ep)
  {
  }

  /** Node b shuts down writing, and its message is delivered and completed. */
  lemma CloserPosts(ca: Config, cb: Config, evs: seq<Event>, a: Node)
    requires ValidConfig(ca) && ValidConfig(cb) && Leads(ca, cb, evs, a, InitNode(cb, ca))
    ensures Leads(ca, cb, evs + [Event(SideB, Shutdown(ShutWr))] + [Event(SideB, Close)], a,
                  Closer(cb, ca, 0, Link([PostMsg(SHUTDOWN_MSG)], [], []), false))
  {
    CloserShape(cb, ca, 0, Link([], [], []), false);
    var n := InitNode(cb, ca);
    var b := n.(ep := n.ep.(st := WRITE_SHUT), pending := Some(CTRL_SHUTDOWN));
    LeadsB(ca, cb, evs, a, n, Shutdown(ShutWr), a, b);
    LeadsB(ca, cb, evs + [Event(SideB, Shutdown(ShutWr))], a, b, Close,
           a, Closer(cb, ca, 0, Link([PostMsg(SHUTDOWN_MSG)], [], []), false));
  }

  lemma CloserDelivers(ca: Config, cb: Config, evs: seq<Event>, a: Node)
    requires ValidConfig(ca) && ValidConfig(cb)
    requires Leads(ca, cb, evs, a, Closer(cb, ca, 0, Link([PostMsg(SHUTDOWN_MSG)], [], []), false))
    ensures Leads(ca, cb, evs + [Event(SideB, Deliver)],
                  a, Closer(cb, ca, 0, Link([], [PostMsg(SHUTDOWN_MSG)], [SHUTDOWN_MSG]), false))
  {
    var b := Closer(cb, ca, 0, Link([PostMsg(SHUTDOWN_MSG)], [], []), false);
    CloserShape(cb, ca, 0, b.link, false);
    MsgRoundTrip(OP_CTRL, CTRL_SHUTDOWN);
    assert [PostMsg(SHUTDOWN_MSG)][1..] == [];
    LeadsB(ca, cb, evs, a, b, Deliver, a, Closer(cb, ca, 0, Link([], [PostMsg(SHUTDOWN_MSG)], [SHUTDOWN_MSG]), false));
  }

  lemma CloserCompletes(ca: Config, cb: Config, evs: seq<Event>, a: Node)
    requires ValidConfig(ca) && ValidConfig(cb)
    requires Leads(ca, cb, evs, a, Closer(cb, ca, 0, Link([], [PostMsg(SHUTDOWN_MSG)], [SHUTDOWN_MSG]), false))
    ensures Leads(ca, cb, evs + [Event(SideB, Complete)], a, Closer(cb, ca, 1, Link([], [], [SHUTDOWN_MSG]), false))
  {
    var b := Closer(cb, ca, 0, Link([], [PostMsg(SHUTDOWN_MSG)], [SHUTDOWN_MSG]), false);
    CloserShape(cb, ca, 0, b.link, false);
    MsgRoundTrip(OP_CTRL, CTRL_SHUTDOWN);
    assert [PostMsg(SHUTDOWN_MSG)][1..] == [];
    LeadsB(ca, cb, evs, a, b, Complete, a, Closer(cb, ca, 1, Link([], [], [SHUTDOWN_MSG]), false));
  }

  /** Node a's SHUT_WR waits; then it polls node b's message and gives up. */
  lemma StarvedShuts(ca: Config, cb: Config, evs: seq<Event>, b: Node)
    requires ValidConfig(ca) && ValidConfig(cb)
    requires Leads(ca, cb, evs, Starved(ca, cb, QP_CTRL_SIZE, 0, 0, CONNECT_RDWR, None), b)
    ensures Leads(ca, cb, evs + [Event(SideA, Shutdown(ShutWr))],
                  Starved(ca, cb, QP_CTRL_SIZE, 0, 0, WRITE_SHUT, Some(CTRL_SHUTDOWN)), b)
  {
    StarvedShape(ca, cb, QP_CTRL_SIZE, 0, 0, CONNECT_RDWR, None);
    LeadsA(ca, cb, evs, Starved(ca, cb, QP_CTRL_SIZE, 0, 0, CONNECT_RDWR, None), b, Shutdown(ShutWr),
           Starved(ca, cb, QP_CTRL_SIZE, 0, 0, WRITE_SHUT, Some(CTRL_SHUTDOWN)), b);
  }

  lemma StarvedPolls(ca: Config, cb: Config, evs: seq<Event>)
    requires ValidConfig(ca) && ValidConfig(cb)
    requires Leads(ca, cb, evs, Starved(ca, cb, QP_CTRL_SIZE, 0, 0, WRITE_SHUT, Some(CTRL_SHUTDOWN)),
                   Closer(cb, ca, 1, Link([], [], [SHUTDOWN_MSG]), false))
    ensures Leads(ca, cb, evs + [Event(SideA, Poll)],
                  Starved(ca, cb, QP_CTRL_SIZE, 0, 0, DISCONNECTED, Some(CTRL_SHUTDOWN)),
                  Closer(cb, ca, 1, Link([], [], []), true))
  {
    StarvedShape(ca, cb, QP_CTRL_SIZE, 0, 0, WRITE_SHUT, Some(CTRL_SHUTDOWN));
    MsgRoundTrip(OP_CTRL, CTRL_SHUTDOWN);
    assert [SHUTDOWN_MSG][1..] == [];
    LeadsA(ca, cb, evs, Starved(ca, cb, QP_CTRL_SIZE, 0, 0, WRITE_SHUT, Some(CTRL_SHUTDOWN)),
           Closer(cb, ca, 1, Link([], [], [SHUTDOWN_MSG]), false), Poll,
           Starved(ca, cb, QP_CTRL_SIZE, 0, 0, DISCONNECTED, Some(CTRL_SHUTDOWN)),
           Closer(cb, ca, 1, Link([], [], []), true));
  }

  lemma StarvedGivesUp(ca: Config, cb: Config, evs: seq<Event>, b: Node)
    requires ValidConfig(ca) && ValidConfig(cb)
    requires Leads(ca, cb, evs, Starved(ca, cb, QP_CTRL_SIZE, 0, 0, DISCONNECTED, Some(CTRL_SHUTDOWN)), b)
    ensures Leads(ca, cb, evs + [Event(SideA, Resume)] + [Event(SideA, Close)],
                  Starved(ca, cb, QP_CTRL_SIZE, 0, 0, DISCONNECTED, None), b)
  {
    StarvedShape(ca, cb, QP_CTRL_SIZE, 0, 0, DISCONNECTED, Some(CTRL_SHUTDOWN));
    var a := Starved(ca, cb, QP_CTRL_SIZE, 0, 0, DISCONNECTED, Some(CTRL_SHUTDOWN));
    LeadsA(ca, cb, evs, a, b, Resume, a.(waiting := false), b);
    LeadsA(ca, cb, evs + [Event(SideA, Resume)], a.(waiting := false), b, Close,
           Starved(ca, cb, QP_CTRL_SIZE, 0, 0, DISCONNECTED, None), b);
  }

  /** The events between exhausting the entries and settling. */
  const CROSSING := [Event(SideA, Shutdown(ShutWr)), Event(SideB, Shutdown(ShutWr)), Event(SideB, Close),
                     Event(SideB, Deliver), Event(SideB, Complete), Event(SideA, Poll), Event(SideA, Resume),
                     Event(SideA, Close)]

  lemma Cross(ca: Config, cb: Config, evs: seq<Event>)
    requires ValidConfig(ca) && ValidConfig(cb)
    requires Leads(ca, cb, evs, Starved(ca, cb, QP_CTRL_SIZE, 0, 0, CONNECT_RDWR, None), InitNode(cb, ca))
    ensures Leads(ca, cb, evs + CROSSING, Starved(ca, cb, QP_CTRL_SIZE, 0, 0, DISCONNECTED, None),
                  Closer(cb, ca, 1, Link([], [], []), true))
  {
    hide Run, Leads;
    var a1 := Starved(ca, cb, QP_CTRL_SIZE, 0, 0, WRITE_SHUT, Some(CTRL_SHUTDOWN));
    StarvedShuts(ca, cb, evs, InitNode(cb, ca));
    assert evs + CROSSING[..1] == evs + [CROSSING[0]];
    CloserPosts(ca, cb, evs + CROSSING[..1], a1);
    assert evs + CROSSING[..3] == evs + CROSSING[..1] + [CROSSING[1]] + [CROSSING[2]];
    CloserDelivers(ca, cb, evs + CROSSING[..3], a1);
    assert evs + CROSSING[..4] == evs + CROSSING[..3] + [CROSSING[3]];
    CloserCompletes(ca, cb, evs + CROSSING[..4], a1);
    assert evs + CROSSING[..5] == evs + CROSSING[..4] + [CROSSING[4]];
    StarvedPolls(ca, cb, evs + CROSSING[..5]);
    assert evs + CROSSING[..6] == evs + CROSSING[..5] + [CROSSING[5]];
    StarvedGivesUp(ca, cb, evs + CROSSING[..6], Closer(cb, ca, 1, Link([], [], []), true));
    assert evs + CROSSING == evs + CROSSING[..6] + [CROSSING[6]] + [CROSSING[7]];
  }

  /** SHUT_WR on both sides does not always disconnect both. Whatever the sizes,
      there is a run in which both sides call it and nothing else of the kind,
      everything settles, and side b stays connected, in every continuation in which
      it does not shut down reading itself: side a's four control entries were busy,
      and its close message was never posted. */
  lemma ShutWriteLost(ca: Config, cb: Config) returns (evs: seq<Event>, v: System)
    requires ValidConfig(ca) && ValidConfig(cb)
    ensures Reaches(ca, cb, evs, SideA, v) && Settled(v)
    ensures Event(SideA, Shutdown(ShutWr)) in evs && Event(SideB, Shutdown(ShutWr)) in evs
    ensures KeepsReading(evs, SideA) && KeepsReading(evs, SideB)
    ensures !v.a.ep.st.connected && v.a.pending.None? && v.b.ep.st.connected
    ensures forall more: seq<Event>, v': System ::
      Reaches(ca, cb, evs + more, SideA, v') && KeepsReading(evs + more, SideB) ==> v'.b.ep.st.connected
  {
    hide Run;
    var b := Closer(cb, ca, 1, Link([], [], []), true);
    var before := Exhaust(ca, cb, QP_CTRL_SIZE);
    Cross(ca, cb, before);
    var delivers := DeliverFirst(ca, cb, before + CROSSING, QP_CTRL_SIZE, DISCONNECTED, None, b);
    var completes := CompleteFirst(ca, cb, before + CROSSING + delivers, QP_CTRL_SIZE, QP_CTRL_SIZE, DISCONNECTED,
                                   None, b);
    evs := before + CROSSING + delivers + completes;
    v := System(Starved(ca, cb, QP_CTRL_SIZE, 0, QP_CTRL_SIZE, DISCONNECTED, None), b);
    CrossingOnly(before, delivers + completes);
    assert evs == before + CROSSING + (delivers + completes);
    RunRecords(ca, cb, evs, SideA, v);
    NoCloseRecorded(ca, cb, evs, v);
    forall more: seq<Event>, v': System | Reaches(ca, cb, evs + more, SideA, v') && KeepsReading(evs + more, SideB)
      ensures v'.b.ep.st.connected
    {
      LostForGood(ca, cb, evs, more, SideA, v, v');
    }
  }

  lemma NoCloseRecorded(ca: Config, cb: Config, evs: seq<Event>, v: System)
    requires Run(ca, cb, evs).Some? && Recorded(ca, cb, evs, v.a.h, SideA) && v.a.h.m.closeAt.None?
    ensures BeforeClose(ca, cb, evs, SideA).None?
  {
    hide Run, BeforeClose;
  }

  lemma CrossingOnly(before: seq<Event>, after: seq<Event>)
    requires OwnAndPlain(before) && OwnAndPlain(after)
    ensures var evs := before + CROSSING + after;
      && Event(SideA, Shutdown(ShutWr)) in evs && Event(SideB, Shutdown(ShutWr)) in evs
      && KeepsReading(evs, SideA) && KeepsReading(evs, SideB)
  {
    var evs := before + CROSSING + after;
    assert evs[|before|] == CROSSING[0] && evs[|before| + 1] == CROSSING[1];
    forall i | 0 <= i < |evs|
      ensures evs[i].act.Shutdown? ==> evs[i].act.how == ShutWr
    {
      if |before| <= i < |before| + 8 {
        assert evs[i] == CROSSING[i - |before|];
      } else if i >= |before| + 8 {
        assert evs[i] == after[i - |before| - 8];
      }
    }
  }

  // ---- the last entry goes to a credit update ----

  /** Node a's wait ends with as many entries free as the credit update takes. */
  lemma StarvedCredits(ca: Config, cb: Config, b: Node)
    requires ValidConfig(ca) && ValidConfig(cb)
    ensures var s := System(Starved(ca, cb, QP_CTRL_SIZE, 0, SqeUse(ca), WRITE_SHUT, Some(CTRL_SHUTDOWN)), b);
      && Enabled(s, Resume)
      && var s1 := Step(s, Resume);
      && Enabled(s1, Close) && !EntryLeft(s1.a.ep)
      && var s2 := Step(s1, Close);
      && s1.b.pending == b.pending && s2.b.pending == b.pending
      && s2.a.ep.st == WRITE_SHUT && s2.a.pending.None? && s2.a.h.m.closeAt.None?
  {
    StarvedShape(ca, cb, QP_CTRL_SIZE, 0, SqeUse(ca), WRITE_SHUT, Some(CTRL_SHUTDOWN));
  }

  /** Side a's rshutdown returns without having posted its message although the
      socket is connected and no other side has done anything. */
  lemma CallLost(ca: Config, cb: Config) returns (evs: seq<Event>, v: System)
    requires ValidConfig(ca) && ValidConfig(cb)
    ensures Reaches(ca, cb, evs, SideA, v) && Event(SideA, Shutdown(ShutWr)) in evs && KeepsReading(evs, SideA)
    ensures forall i :: 0 <= i < |evs| ==> evs[i].side == SideA
    ensures v.a.ep.st == WRITE_SHUT && v.a.pending.None? && v.b.pending.None?
    ensures BeforeClose(ca, cb, evs, SideA).None?
  {
    hide Run, BeforeClose, Enabled, Step, Starved;
    var b, k := InitNode(cb, ca), SqeUse(ca);
    var before := Exhaust(ca, cb, QP_CTRL_SIZE);
    StarvedShuts(ca, cb, before, b);
    var shut := Event(SideA, Shutdown(ShutWr));
    var delivers := DeliverFirst(ca, cb, before + [shut], k, WRITE_SHUT, Some(CTRL_SHUTDOWN), b);
    var completes := CompleteFirst(ca, cb, before + [shut] + delivers, k, k, WRITE_SHUT, Some(CTRL_SHUTDOWN), b);
    var a := Starved(ca, cb, QP_CTRL_SIZE, 0, k, WRITE_SHUT, Some(CTRL_SHUTDOWN));
    StarvedCredits(ca, cb, b);
    var v1 := Step(System(a, b), Resume);
    v := Step(v1, Close);
    var waited := before + [shut] + delivers + completes;
    LeadsA(ca, cb, waited, a, b, Resume, v1.a, v1.b);
    LeadsA(ca, cb, waited + [Event(SideA, Resume)], v1.a, v1.b, Close, v.a, v.b);
    evs := waited + [Event(SideA, Resume)] + [Event(SideA, Close)];
    assert evs[|before|] == shut;
    RunRecords(ca, cb, evs, SideA, v);
    NoCloseRecorded(ca, cb, evs, v);
  }

  /** So does one that found an entry free and did not wait: before its last look a
      keepalive of another thread took the entry. */
  lemma CallLostToThread(ca: Config, cb: Config) returns (evs: seq<Event>, v: System)
    requires ValidConfig(ca) && ValidConfig(cb)
    ensures Reaches(ca, cb, evs, SideA, v) && Event(SideA, Shutdown(ShutWr)) in evs && KeepsReading(evs, SideA)
    ensures forall i :: 0 <= i < |evs| ==> evs[i].side == SideA && !evs[i].act.Resume?
    ensures v.a.ep.st == WRITE_SHUT && v.a.pending.None? && BeforeClose(ca, cb, evs, SideA).None?
  {
    hide Run, BeforeClose;
    var b, n := InitNode(cb, ca), QP_CTRL_SIZE - 1;
    var before := Exhaust(ca, cb, n);
    StarvedShape(ca, cb, n, 0, 0, CONNECT_RDWR, None);
    KeepalivesMove(0, n);
    var a1 := Starved(ca, cb, n, 0, 0, WRITE_SHUT, Some(CTRL_SHUTDOWN)).(waiting := false);
    var a2 := Starved(ca, cb, QP_CTRL_SIZE, 0, 0, WRITE_SHUT, Some(CTRL_SHUTDOWN)).(waiting := false);
    var shut := Event(SideA, Shutdown(ShutWr));
    v := System(Starved(ca, cb, QP_CTRL_SIZE, 0, 0, WRITE_SHUT, None), b);
    LeadsA(ca, cb, before, Starved(ca, cb, n, 0, 0, CONNECT_RDWR, None), b, Shutdown(ShutWr), a1, b);
    LeadsA(ca, cb, before + [shut], a1, b, Keepalive, a2, b);
    LeadsA(ca, cb, before + [shut] + [Event(SideA, Keepalive)], a2, b, Close, v.a, b);
    evs := before + [shut] + [Event(SideA, Keepalive)] + [Event(SideA, Close)];
    assert evs[|before|] == shut;
    RunRecords(ca, cb, evs, SideA, v);
    NoCloseRecorded(ca, cb, evs, v);
  }

  /** So SHUT_WR on both sides can leave one connected without any crossing. */
  lemma ShutWriteLostToCredits(ca: Config, cb: Config) returns (evs: seq<Event>, v: System)
    requires ValidConfig(ca) && ValidConfig(cb) && ca.rqSize >= 2 && cb.rqSize >= 2
    ensures Reaches(ca, cb, evs, SideA, v) && Settled(v)
    ensures Event(SideA, Shutdown(ShutWr)) in evs && Event(SideB, Shutdown(ShutWr)) in evs
    ensures KeepsReading(evs, SideA) && KeepsReading(evs, SideB)
    ensures v.a.pending.None? && v.b.pending.None?
    ensures v.b.ep.st.connected && BeforeClose(ca, cb, evs, SideA).None?
  {
    hide Run, BeforeClose, Exhausted, Can, Runs.Apply;
    var evs1, v1 := CallLostSettled(ca, cb);
    var evs2, v2 := OtherShuts(ca, cb, evs1, v1);
    assert evs2[|evs1|] == Event(SideB, Shutdown(ShutWr));
    var more: seq<Event>;
    more, v := SettledNext(ca, cb, evs2, v2);
    evs := evs2 + more;
    assert evs[|evs1|] == evs2[|evs1|];
    StillConnected(ca, cb, evs, SideA, v);
  }

  /** Everything on the way arrives, and nothing is shut down. */
  lemma SettledNext(ca: Config, cb: Config, evs: seq<Event>, v: System) returns (more: seq<Event>, v': System)
    requires Reaches(ca, cb, evs, SideA, v) && ca.rqSize >= 2 && cb.rqSize >= 2
    ensures Reaches(ca, cb, evs + more, SideA, v') && Settled(v')
    ensures forall i :: 0 <= i < |more| ==> !more[i].act.Shutdown?
    ensures v'.a.pending == v.a.pending && v'.b.pending == v.b.pending
    ensures Run(ca, cb, evs).Some? && Run(ca, cb, evs + more).Some?
    ensures BeforeClose(ca, cb, evs + more, SideA) == BeforeClose(ca, cb, evs, SideA)
  {
    hide Run, BeforeClose, Exhausted, Inv;
    more, v' := Settles(ca, cb, evs, SideA, v);
    SettlingKeeps(ca, cb, evs, v, more, v', SideA);
    RunInv(ca, cb, evs + more, SideA, v');
    RestExact(v');
  }

  lemma CallLostSettled(ca: Config, cb: Config) returns (evs: seq<Event>, v: System)
    requires ValidConfig(ca) && ValidConfig(cb) && ca.rqSize >= 2 && cb.rqSize >= 2
    ensures Reaches(ca, cb, evs, SideA, v) && Settled(v) && Event(SideA, Shutdown(ShutWr)) in evs
    ensures KeepsReading(evs, SideA) && KeepsReading(evs, SideB)
    ensures v.a.pending.None? && v.b.pending.None? && v.b.ep.st.connected && Run(ca, cb, evs).Some?
    ensures BeforeClose(ca, cb, evs, SideA).None?
  {
    hide Run, BeforeClose;
    var evs1, v1 := CallLost(ca, cb);
    var more: seq<Event>;
    more, v := SettledNext(ca, cb, evs1, v1);
    evs := evs1 + more;
    StillConnected(ca, cb, evs, SideA, v);
  }

  /** Side b calls SHUT_WR, from its start to its end. */
  lemma OtherShuts(ca: Config, cb: Config, evs: seq<Event>, v: System) returns (evs': seq<Event>, v': System)
    requires Reaches(ca, cb, evs, SideA, v) && v.b.ep.st.connected && v.b.pending.None? && v.a.pending.None?
    requires Settled(v)
    ensures Reaches(ca, cb, evs', SideA, v') && v'.a.pending.None? && v'.b.pending.None?
    ensures evs' == evs + [Event(SideB, Shutdown(ShutWr))] + [Event(SideB, Close)]
    ensures BeforeClose(ca, cb, evs', SideA) == BeforeClose(ca, cb, evs, SideA)
  {
    hide Run, BeforeClose;
    var shut, close := Event(SideB, Shutdown(ShutWr)), Event(SideB, Close);
    RunInv(ca, cb, evs, SideA, v);
    CanShut(v);
    Extend(ca, cb, evs, v, shut);
    var v1 := Apply(v, shut);
    Extend(ca, cb, evs + [shut], v1, close);
    OtherCloses(ca, cb, evs, shut);
    OtherCloses(ca, cb, evs + [shut], close);
    evs', v' := evs + [shut] + [close], Apply(v1, close);
  }

  lemma CanShut(v: System)
    requires Inv(v) && v.b.ep.st.connected && v.b.pending.None? && Settled(v)
    ensures var shut, close := Event(SideB, Shutdown(ShutWr)), Event(SideB, Close);
      && Can(v, shut) && Can(Apply(v, shut), close)
      && var v' := Apply(Apply(v, shut), close); v'.a.pending == v.a.pending && v'.b.pending.None?
  {
    hide DirInv;
    IdleBudgets(v.b);
  }

  lemma OtherCloses(ca: Config, cb: Config, evs: seq<Event>, ev: Event)
    requires Run(ca, cb, evs + [ev]).Some? && ev.side == SideB && Run(ca, cb, evs).Some?
    ensures BeforeClose(ca, cb, evs + [ev], SideA) == BeforeClose(ca, cb, evs, SideA)
  {
    assert (evs + [ev])[..|evs|] == evs;
  }
}
