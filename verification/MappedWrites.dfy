/** Writes into memory that the peer mapped: direct writes and iomap messages. */
module MappedWrites {
  import opened Common
  import opened Wire
  import opened EndpointOps
  import opened SendQueue
  import opened Channel
  import opened ChannelSteps
  import opened Protocol
  import opened ProtocolInv
  import opened Runs
  import opened Theorems

  /** One such write. */
  datatype Mapped = Mapped(dst: Target, bytes: seq<byte>)

  function Writing(dst: Target, d: Option<Datum>): seq<Mapped> {
    if (dst.PeerMapped? || dst.PeerIomap?) && d.Some? && d.value.Bytes? then [Mapped(dst, d.value.bytes)] else []
  }

  /** What the requests in a queue are meant to write there. */
  function Waiting(q: seq<Wr>): seq<Mapped> {
    if q == [] then [] else Writing(q[0].dst, q[0].intent.intended) + Waiting(q[1..])
  }

  /** What a call asks to have written. */
  function Issues(act: Act): seq<Mapped> {
    match act
    case Direct(data) => [Mapped(PeerMapped, data)]
    case Iomap(iom, index) => [Mapped(PeerIomap(index), iom)]
    case _ => []
  }

  /** What the adapter of node a writes, read from its memory when it does. */
  ghost function Performs(v: System, act: Act): seq<Mapped> {
    if act.Deliver? && v.a.link.inFlight != [] then
      Writing(v.a.link.inFlight[0].dst, Fetch(v.a.ep.tx, v.a.link.inFlight[0].src))
    else []
  }

  function Issued(evs: seq<Event>, side: Side): seq<Mapped> {
    if evs == [] then []
    else
      var n := |evs| - 1;
      Issued(evs[..n], side) + if evs[n].side == side then Issues(evs[n].act) else []
  }

  ghost function Performed(ca: Config, cb: Config, evs: seq<Event>, side: Side): seq<Mapped>
    requires Run(ca, cb, evs).Some?
  {
    if evs == [] then []
    else
      var n := |evs| - 1;
      Performed(ca, cb, evs[..n], side)
      + if evs[n].side == side then Performs(View(Run(ca, cb, evs[..n]).value, side), evs[n].act) else []
  }

  lemma {:induction false} WaitingAppend(p: seq<Wr>, q: seq<Wr>)
    ensures Waiting(p + q) == Waiting(p) + Waiting(q)
  {
    hide Writing;
    if p == [] {
      assert p + q == q;
    } else {
      WaitingAppend(p[1..], q);
      assert (p + q)[1..] == p[1..] + q;
      var first := Writing(p[0].dst, p[0].intent.intended);
      assert first + (Waiting(p[1..]) + Waiting(q)) == first + Waiting(p[1..]) + Waiting(q);
    }
  }

  lemma WaitingFew(wrs: seq<Wr>)
    requires |wrs| <= 2 && (|wrs| == 2 ==> Writing(wrs[1].dst, wrs[1].intent.intended) == [])
    ensures Waiting(wrs) == if wrs == [] then [] else Writing(wrs[0].dst, wrs[0].intent.intended)
  {
    hide Writing;
    if |wrs| == 2 {
      assert wrs[1..][1..] == [];
      assert Waiting(wrs[1..]) == [];
    }
  }

  /** Node a posts `wrs`, which are to write `first`. */
  lemma PostsWriting(n: Node, n': Node, wrs: seq<Wr>, first: seq<Mapped>)
    requires n'.link.inFlight == n.link.inFlight + wrs && |wrs| <= 2
    requires |wrs| == 2 ==> Writing(wrs[1].dst, wrs[1].intent.intended) == []
    requires first == if wrs == [] then [] else Writing(wrs[0].dst, wrs[0].intent.intended)
    ensures Waiting(n'.link.inFlight) == Waiting(n.link.inFlight) + first
  {
    hide Writing, Waiting;
    WaitingFew(wrs);
    WaitingAppend(n.link.inFlight, wrs);
  }

  lemma SendWrites(s: System, data: seq<byte>, vectored: bool)
    requires Enabled(s, Send(data, vectored))
    ensures Waiting(Step(s, Send(data, vectored)).a.link.inFlight) == Waiting(s.a.link.inFlight)
  {
    hide RingPut, RingNext, RingGather, Waiting;
    PostsWriting(s.a, Step(s, Send(data, vectored)).a, Transfer(s.a.ep.cfg, s.a.ep.tx, data, vectored).1, []);
  }

  lemma CtrlWrites(s: System, act: Act)
    requires Enabled(s, act) && (act == Credits || act == Keepalive || act == Resume || act == Close)
    ensures Waiting(Step(s, act).a.link.inFlight) == Waiting(s.a.link.inFlight)
  {
    hide Waiting;
    var wrs :=
      if act == Keepalive then SendKeepalive(s.a.ep).1
      else if act == Credits then SendCredits(s.a.ep).1
      else if act == Resume then UpdateCredits(s.a.ep).1
      else if EntryLeft(s.a.ep) then SendCtrl(s.a.ep, s.a.pending.value).1
      else [];
    PostsWriting(s.a, Step(s, act).a, wrs, []);
  }

  lemma MappedPosts(s: System, act: Act)
    requires Enabled(s, act) && (act.Direct? || act.Iomap?)
    ensures Waiting(Step(s, act).a.link.inFlight) == Waiting(s.a.link.inFlight) + Issues(act)
  {
    hide RingPut, RingNext, RingGather, Waiting;
    match act {
      case Direct(data) =>
        PostsWriting(s.a, Step(s, act).a, SendDirect(s.a.ep.cfg, s.a.ep.tx, data).1, Issues(act));
      case Iomap(iom, index) =>
        PostsWriting(s.a, Step(s, act).a, SendIomap(s.a.ep.cfg, s.a.ep.tx, iom, index).1, Issues(act));
    }
  }

  lemma DeliverWrites(s: System)
    requires Inv(s) && Enabled(s, Deliver)
    ensures Performs(s, Deliver) + Waiting(Step(s, Deliver).a.link.inFlight) == Waiting(s.a.link.inFlight)
  {
    hide DirInv, QueueInv;
    FetchState(s.a, 0);
  }

  /** A step of node a moves what is to be written along, and leaves the other
      node's requests alone. */
  lemma StepWrites(s: System, act: Act)
    requires Inv(s) && Enabled(s, act)
    ensures Performs(s, act) + Waiting(Step(s, act).a.link.inFlight) == Waiting(s.a.link.inFlight) + Issues(act)
    ensures Step(s, act).b.link.inFlight == s.b.link.inFlight
  {
    hide Inv, Waiting;
    match act
    case Send(data, vectored) => SendWrites(s, data, vectored);
    case Direct(_) => MappedPosts(s, act);
    case Iomap(_, _) => MappedPosts(s, act);
    case Deliver => DeliverWrites(s);
    case Credits => CtrlWrites(s, act);
    case Keepalive => CtrlWrites(s, act);
    case Resume => CtrlWrites(s, act);
    case Close => CtrlWrites(s, act);
    case _ =>
  }

  /** In every run the adapter writes into the peer's mapped memory exactly what
      riowrite and rs_send_iomaps were given, each once, in order and to the place
      named, as far as it has come: what it has written and what is posted is all. */
  lemma {:induction false} MappedIntact(ca: Config, cb: Config, evs: seq<Event>, side: Side, v: System)
    requires Reaches(ca, cb, evs, side, v)
    ensures Performed(ca, cb, evs, side) + Waiting(v.a.link.inFlight) == Issued(evs, side)
    decreases |evs|
  {
    hide Step, Enabled, Inv, Waiting, Performs, Issues;
    if evs == [] {
      NothingWaits(ca, cb, v, side);
    } else {
      var n := |evs| - 1;
      var s, ev := Run(ca, cb, evs[..n]).value, evs[n];
      RunInv(ca, cb, evs[..n], ev.side, View(s, ev.side));
      MappedIntact(ca, cb, evs[..n], side, View(s, side));
      StepWrites(View(s, ev.side), ev.act);
      if ev.side == side {
        Moves(Performed(ca, cb, evs[..n], side), Performs(View(s, side), ev.act), Waiting(v.a.link.inFlight),
              Waiting(View(s, side).a.link.inFlight), Issues(ev.act));
      } else {
        Moves(Performed(ca, cb, evs[..n], side), [], Waiting(v.a.link.inFlight), Waiting(v.a.link.inFlight), []);
      }
    }
  }

  lemma NothingWaits(ca: Config, cb: Config, v: System, side: Side)
    requires Init(ca, cb) == View(v, side)
    ensures Waiting(v.a.link.inFlight) == []
  {
  }

  lemma Moves(done: seq<Mapped>, more: seq<Mapped>, left: seq<Mapped>, was: seq<Mapped>, issued: seq<Mapped>)
    requires more + left == was + issued
    ensures done + more + left == done + was + issued
  {
    assert done + more + left == done + (more + left);
    assert done + was + issued == done + (was + issued);
  }
}
