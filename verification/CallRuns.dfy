/** Whole calls inside a run of two connected rsockets: what rsend, rsendv and
    rrecv do between two waits, and what happens around them while they wait, are
    steps of the connection, so what holds of every run holds of every call. */
module CallRuns {
  import opened Common
  import opened Wire
  import opened EndpointOps
  import opened SendQueue
  import opened Channel
  import opened ChannelSteps
  import opened Protocol
  import opened ProtocolInv
  import opened Runs
  import opened Theorems
  import opened Calls

  // ---- runs from a given state ----

  /** The state after `evs`, if each was possible when it happened. */
  ghost function Exec(s: System, evs: seq<Event>): Option<System>
    decreases |evs|
  {
    if evs == [] then Some(s)
    else if Can(s, evs[0]) then Exec(Runs.Apply(s, evs[0]), evs[1..])
    else None
  }

  lemma {:induction false} ExecAppend(s: System, p: seq<Event>, q: seq<Event>)
    requires Exec(s, p).Some?
    ensures Exec(s, p + q) == Exec(Exec(s, p).value, q)
    decreases |p|
  {
    hide Can, Runs.Apply;
    if p == [] {
      assert p + q == q;
    } else {
      assert (p + q)[1..] == p[1..] + q;
      ExecAppend(Runs.Apply(s, p[0]), p[1..], q);
    }
  }

  lemma {:induction false} RunExec(ca: Config, cb: Config, evs: seq<Event>, s: System, more: seq<Event>)
    requires Run(ca, cb, evs) == Some(s) && Exec(s, more).Some?
    ensures Run(ca, cb, evs + more) == Exec(s, more)
    decreases |more|
  {
    hide Can, Runs.Apply;
    if more == [] {
      assert evs + more == evs;
    } else {
      var evs' := evs + [more[0]];
      assert evs'[..|evs|] == evs && evs' + more[1..] == evs + more;
      RunExec(ca, cb, evs', Runs.Apply(s, more[0]), more[1..]);
    }
  }

  /** Events seen from `side`, as events of the connection. */
  function Turned(evs: seq<Event>, side: Side): seq<Event> {
    if evs == [] then []
    else [Event(if side.SideA? then evs[0].side else Other(evs[0].side), evs[0].act)] + Turned(evs[1..], side)
  }

  lemma {:induction false} TurnedExec(v: System, evs: seq<Event>, side: Side)
    requires Exec(v, evs).Some?
    ensures Exec(View(v, side), Turned(evs, side)) == Some(View(Exec(v, evs).value, side))
    decreases |evs|
  {
    hide Enabled, Step;
    if evs != [] {
      TurnedExec(Runs.Apply(v, evs[0]), evs[1..], side);
      var turned := Turned(evs, side);
      assert turned[1..] == Turned(evs[1..], side);
      assert View(View(v, side), turned[0].side) == View(v, evs[0].side);
    }
  }

  lemma EventInv(v: System, ev: Event)
    requires Inv(v) && Can(v, ev)
    ensures Inv(Runs.Apply(v, ev))
  {
    hide Inv, Enabled, Step;
    ViewInv(v, ev.side);
    StepInv(View(v, ev.side), ev.act);
    ViewInv(Step(View(v, ev.side), ev.act), ev.side);
  }

  // ---- the socket of side a ----

  /** `k` is the socket of side a: its endpoint, and the requests not yet completed. */
  ghost predicate Follows(k: Sock, v: System) {
    k.ep == v.a.ep && k.completed <= |k.posted| && k.Out() == v.a.link.Out()
  }

  lemma LiveQueue(v: System)
    requires Inv(v)
    ensures Live(v.a.ep.cfg, v.a.ep.rx)
  {
    hide SentWithin, LimitsGiven, SpaceGiven, SpaceUsed, TargetInv, MemInv, OffsetOk, FwdPipe, ArrPipe, BwdPipe,
         ArrLimits, QueueInv;
    var c, rx, m := v.a.ep.cfg, v.a.ep.rx, v.b.h.m;
    forall i | 0 <= i <= c.rqSize && Between(c, rx.rmsgHead, i) < Between(c, rx.rmsgHead, rx.rmsgTail)
      ensures 1 <= rx.rmsg[i].data <= c.rbufSize
    {
      var j := Between(c, rx.rmsgHead, i);
      assert Queued(rx.rmsg, rx.rmsgHead, m.lens, |m.recvd|, m.done, j);
      assert InHalf(m.lens, c.Half(), m.done + j);
    }
  }

  lemma TargetLengths(v: System)
    requires Inv(v)
    ensures Lengths(v.a.ep.tx.targetSgl)
  {
    hide StreamInv, SentWithin, LimitsGiven, SpaceGiven, RingInv, MemInv, OffsetOk, FwdPipe, ArrPipe, BwdPipe,
         ArrLimits, QueueInv;
  }

  lemma FollowsCore(k: Sock, v: System)
    requires Inv(v) && Follows(k, v) && IomapsOk(k.iomaps)
    ensures Core(k)
  {
    hide DirInv, QueueInv, Live, Lengths;
    LiveQueue(v);
    TargetLengths(v);
  }

  /** What of the socket is not in the connection: mappings of the right form, and
      all its receives posted while it is connected. */
  predicate OwnPart(k: Sock) {
    IomapsOk(k.iomaps) && (k.ep.st.connected ==> k.recvs == k.ep.cfg.rqSize)
  }

  /** The socket of a reachable state is always one the calls can be made on. */
  lemma FollowsInv(k: Sock, v: System)
    requires Inv(v) && Follows(k, v) && OwnPart(k)
    ensures SockInv(k)
  {
    hide Core, Inv, Follows;
    FollowsCore(k, v);
  }

  lemma ReachedInv(ca: Config, cb: Config, evs: seq<Event>, side: Side, v: System, k: Sock)
    requires Reaches(ca, cb, evs, side, v) && Follows(k, v) && OwnPart(k)
    ensures Inv(v) && SockInv(k)
  {
    hide Inv, SockInv, Run, Follows, OwnPart;
    RunInv(ca, cb, evs, side, v);
    FollowsInv(k, v);
  }

  // ---- what happens during a wait ----

  /** Who waits: rsend or rsendv, which hold slock, or rrecv, which holds rlock. */
  datatype Caller = Sender | Reader

  /** What can happen while a call of side a waits: anything but what its lock keeps
      other threads from, that is sending, or reading. */
  predicate Outside(ev: Event, who: Caller) {
    ev.side.SideB? || if who.Sender? then !ev.act.Send? && !ev.act.Iomap? && !ev.act.Direct? else !ev.act.Recv?
  }

  /** The adapter's part, and polling. */
  predicate ByAdapter(act: Act) {
    act.Poll? || act.Complete? || act.Deliver?
  }

  function Suffix<T>(s: seq<T>, s': seq<T>): seq<T> {
    if |s| <= |s'| then s'[|s|..] else []
  }

  /** What side a's call sees of it. */
  ghost function ItemOf(v: System, ev: Event): Option<Item>
    requires Can(v, ev)
  {
    if ev.side.SideB? then
      if ev.act.Deliver? then var w := v.b.link.inFlight[0]; Some(Remote(w.dst, Fetch(v.b.ep.tx, w.src))) else None
    else if ev.act.Poll? then Some(Receipt(v.b.link.arrived[0]))
    else if ev.act.Complete? then Some(Done)
    else if ev.act.Deliver? then None
    else var a := Step(v, ev.act).a; Some(Beside(a.ep, Suffix(v.a.link.inFlight, a.link.inFlight)))
  }

  /** While a sender waits nothing is sent by side a, while a reader waits nothing is
      returned to it. */
  ghost predicate Still(v: System, v': System, who: Caller) {
    && v.a.h.m.sent <= v'.a.h.m.sent && v.b.h.m.recvd <= v'.b.h.m.recvd
    && if who.Sender? then v'.a.h.m.sent == v.a.h.m.sent else v'.b.h.m.recvd == v.b.h.m.recvd
  }

  /** Nothing of either kind happened. */
  ghost predicate Same(v: System, v': System) {
    v'.a.h.m.sent == v.a.h.m.sent && v'.b.h.m.recvd == v.b.h.m.recvd
  }

  lemma OutsideStill(v: System, ev: Event, who: Caller)
    requires Can(v, ev) && Outside(ev, who)
    ensures Still(v, Runs.Apply(v, ev), who)
  {
    hide Enabled, Step, PostsClose;
    StepRecords(View(v, ev.side), ev.act);
  }

  /** What a thread of side a does only adds to what it has posted. */
  lemma OwnPosts(v: System, act: Act)
    requires Enabled(v, act) && !ByAdapter(act)
    ensures var a := Step(v, act).a;
      && a.link == v.a.link.(inFlight := v.a.link.inFlight + Suffix(v.a.link.inFlight, a.link.inFlight))
      && a.ep.cfg == v.a.ep.cfg && (a.ep.st.connected ==> v.a.ep.st.connected)
  {
    assert v.a.link.inFlight + [] == v.a.link.inFlight;
  }

  lemma PollItem(v: System)
    requires Inv(v) && Enabled(v, Poll)
    ensures ItemOk(v.a.ep.cfg, Receipt(v.b.link.arrived[0]))
  {
    hide SentWithin, LimitsGiven, SpaceGiven, SpaceUsed, TargetInv, RingInv, MemInv, OffsetOk, FwdPipe, BwdPipe,
         ArrLimits, QueueInv;
    var msg, m := v.b.link.arrived[0], v.b.h.m;
    assert MsgOk(msg, m.lens, m.closeAt, m.polled, m.notified);
    if IsDataMsg(msg) {
      assert InHalf(m.lens, v.a.ep.cfg.Half(), m.polled);
    }
  }

  lemma GrantItem(v: System)
    requires Inv(v) && v.b.link.inFlight != []
    ensures var w := v.b.link.inFlight[0]; ItemOk(v.a.ep.cfg, Remote(w.dst, Fetch(v.b.ep.tx, w.src)))
  {
    hide StreamInv, SentWithin, LimitsGiven, SpaceGiven, SpaceUsed, TargetInv, RingInv, MemInv, OffsetOk, FwdPipe,
         ArrPipe, ArrLimits, QueueInv;
    FetchState(v.b, 0);
    assert v.b.link.inFlight[0].dst.PeerSgl? ==>
      GrantOk(v.b.link.inFlight[0], v.a.h.g.granted, v.b.ep.cfg.Half(), v.a.h.g.visible);
  }

  /** An event that side a does not see leaves its socket as it is. */
  lemma UnseenKeeps(k: Sock, v: System, ev: Event)
    requires Follows(k, v) && Can(v, ev) && ItemOf(v, ev).None?
    ensures Follows(k, Runs.Apply(v, ev))
  {
    if ev.side.SideA? {
      assert Executed(v.a.link).Out() == v.a.link.Out();
    }
  }

  /** One that it sees does to the socket what the item does. */
  lemma SeenApplies(k: Sock, v: System, ev: Event)
    requires Inv(v) && Follows(k, v) && Core(k) && Can(v, ev) && ItemOf(v, ev).Some?
    ensures ItemOk(k.ep.cfg, ItemOf(v, ev).value)
    ensures Follows(Calls.Apply(k, ItemOf(v, ev).value), Runs.Apply(v, ev))
  {
    hide DirInv, QueueInv, Live, Lengths, IomapsOk, ItemOk, Step;
    if ev.side.SideB? {
      GrantItem(v);
      RemoteApplies(k, v);
    } else if ev.act.Poll? {
      PollItem(v);
      ReceiptApplies(k, v);
    } else if ev.act.Complete? {
      DoneApplies(k, v);
    } else {
      BesideApplies(k, v, ev.act);
    }
  }

  lemma RemoteApplies(k: Sock, v: System)
    requires Shape(k.ep) && Follows(k, v) && Enabled(Swap(v), Deliver)
    ensures var w := v.b.link.inFlight[0];
      Follows(Calls.Apply(k, Remote(w.dst, Fetch(v.b.ep.tx, w.src))), Swap(Step(Swap(v), Deliver)))
  {
    hide Land, ValidConfig, TxShape, RxShape;
  }

  lemma ReceiptApplies(k: Sock, v: System)
    requires Shape(k.ep) && Follows(k, v) && Enabled(v, Poll)
    ensures Follows(Calls.Apply(k, Receipt(v.b.link.arrived[0])), Step(v, Poll))
  {
    hide PollMsg, ValidConfig, TxShape, RxShape;
  }

  lemma BesideApplies(k: Sock, v: System, act: Act)
    requires Inv(v) && Follows(k, v) && Core(k) && Enabled(v, act) && !ByAdapter(act)
    ensures var a := Step(v, act).a; var item := Beside(a.ep, Suffix(v.a.link.inFlight, a.link.inFlight));
      ItemOk(k.ep.cfg, item) && Follows(Calls.Apply(k, item), Step(v, act))
  {
    hide Inv, QueueInv, Live, Lengths, IomapsOk, Enabled, Step, ValidConfig, TxShape, RxShape;
    OwnPosts(v, act);
    StepInv(v, act);
    var a := Step(v, act).a;
    var wrs := Suffix(v.a.link.inFlight, a.link.inFlight);
    var k' := k.(ep := a.ep, posted := k.posted + wrs);
    OutAppend(k, k', wrs);
    assert v.a.link.acked + (v.a.link.inFlight + wrs) == v.a.link.Out() + wrs;
    FollowsCore(k', Step(v, act));
  }

  lemma DoneApplies(k: Sock, v: System)
    requires Shape(k.ep) && Follows(k, v) && Enabled(v, Complete)
    ensures ItemOk(k.ep.cfg, Done) && Follows(Calls.Apply(k, Done), Step(v, Complete))
  {
    hide PollSend, ValidConfig, TxShape, RxShape;
    assert k.posted[k.completed] == k.Out()[0] == v.a.link.acked[0];
    assert Calls.Apply(k, Done).Out() == k.Out()[1..];
    assert Step(v, Complete).a.link.Out() == v.a.link.Out()[1..];
  }

  /** The event is a message that ends rs_poll_cq. */
  ghost predicate Stops(v: System, ev: Event)
    requires Can(v, ev)
  {
    ev.side.SideA? && ev.act.Poll? && Ends(v.a.ep, Receipt(v.b.link.arrived[0]))
  }

  /** The events of one wait: nothing comes after a message that ends the pass. */
  ghost predicate Wait(v: System, evs: seq<Event>, who: Caller)
    decreases |evs|
  {
    evs != [] ==>
      && Outside(evs[0], who) && Can(v, evs[0]) && (Stops(v, evs[0]) ==> |evs| == 1)
      && Wait(Runs.Apply(v, evs[0]), evs[1..], who)
  }

  ghost function Items(v: System, evs: seq<Event>, who: Caller): seq<Item>
    requires Wait(v, evs, who)
    decreases |evs|
  {
    if evs == [] then []
    else
      var rest := Items(Runs.Apply(v, evs[0]), evs[1..], who);
      match ItemOf(v, evs[0])
      case None => rest
      case Some(item) => [item] + rest
  }

  ghost function After(v: System, evs: seq<Event>, who: Caller): System
    requires Wait(v, evs, who)
    decreases |evs|
  {
    if evs == [] then v else After(Runs.Apply(v, evs[0]), evs[1..], who)
  }

  lemma {:induction false} WaitExec(v: System, evs: seq<Event>, who: Caller)
    requires Inv(v) && Wait(v, evs, who)
    ensures Exec(v, evs) == Some(After(v, evs, who)) && Inv(After(v, evs, who)) && Still(v, After(v, evs, who), who)
    decreases |evs|
  {
    hide Inv, Can, Runs.Apply, Stops, Outside;
    if evs != [] {
      EventInv(v, evs[0]);
      OutsideStill(v, evs[0], who);
      WaitExec(Runs.Apply(v, evs[0]), evs[1..], who);
    }
  }

  /** What the pass over the completion queue makes of the socket. */
  lemma {:induction false} WaitScans(k: Sock, v: System, evs: seq<Event>, who: Caller)
    requires Inv(v) && Follows(k, v) && Core(k) && Wait(v, evs, who)
    ensures ItemsOk(k.ep.cfg, Items(v, evs, who)) && Follows(Scan(k, Items(v, evs, who)).0, After(v, evs, who))
    decreases |evs|
  {
    hide Inv, Can, Runs.Apply, Calls.Apply, Outside, Follows, ItemOf, Ends, Stops, ItemOk,
         QueueInv, Live, Lengths, IomapsOk, ValidConfig, TxShape, RxShape;
    if evs != [] {
      EventInv(v, evs[0]);
      var v1 := Runs.Apply(v, evs[0]);
      match ItemOf(v, evs[0]) {
        case None =>
          UnseenKeeps(k, v, evs[0]);
          WaitScans(k, v1, evs[1..], who);
        case Some(item) =>
          SeenApplies(k, v, evs[0]);
          ApplyInv(k, item);
          StopsEnds(k, v, evs[0]);
          WaitScans(Calls.Apply(k, item), v1, evs[1..], who);
          assert ([item] + Items(v1, evs[1..], who))[1..] == Items(v1, evs[1..], who);
      }
    }
  }

  lemma StopsEnds(k: Sock, v: System, ev: Event)
    requires Follows(k, v) && Shape(k.ep) && Can(v, ev) && ItemOf(v, ev).Some?
    ensures Ends(k.ep, ItemOf(v, ev).value) <==> Stops(v, ev)
  {
  }

  // ---- rs_get_comp ----

  lemma InvGives(v: System)
    requires Inv(v)
    ensures CanGive(v.a.ep)
  {
    hide DirInv, QueueInv;
  }

  ghost function CreditEvents(v: System): seq<Event> {
    if GiveCredits(v.a.ep) then [Event(SideA, Credits)] else []
  }

  lemma UpdateRuns(k: Sock, v: System)
    requires Inv(v) && Follows(k, v) && SockInv(k)
    ensures Exec(v, CreditEvents(v)) == Some(Updated(v)) && Inv(Updated(v)) && Same(v, Updated(v))
    ensures Follows(Update(k), Updated(v)) && SockInv(Update(k))
  {
    hide DirInv, QueueInv, SendCredits, Live;
    UpdatedInv(v);
    UpdateInv(k);
    if GiveCredits(v.a.ep) {
      OutAppend(k, Update(k), SendCredits(k.ep).1);
      PostedOut(v.a, SendCredits(v.a.ep).0, SendCredits(v.a.ep).1);
      assert CreditEvents(v)[1..] == [];
    } else {
      assert k.posted + [] == k.posted;
    }
  }

  /** What happens in a part of a call: the events, where they lead, and what the
      socket sees of each wait in it. */
  datatype Part = Part(evs: seq<Event>, v: System, waits: seq<seq<Item>>)

  /** What others do while a call waits: the first of `plans`, if it is possible. */
  ghost function Chosen(v: System, plans: seq<seq<Event>>, who: Caller): seq<Event> {
    if plans != [] && Wait(v, plans[0], who) then plans[0] else []
  }

  lemma ChosenWaits(v: System, plans: seq<seq<Event>>, who: Caller)
    ensures Wait(v, Chosen(v, plans, who), who)
  {
  }

  /** rs_get_comp of a non-blocking socket: credits, one pass, credits. */
  ghost function GetComp(v: System, plans: seq<seq<Event>>, who: Caller): (r: Part)
    requires Inv(v)
    ensures |r.waits| == 1
  {
    UpdatedInv(v);
    var v1 := Updated(v);
    var w := Chosen(v1, plans, who);
    WaitExec(v1, w, who);
    var v2 := After(v1, w, who);
    Part(CreditEvents(v) + w + CreditEvents(v2), Updated(v2), [Items(v1, w, who)])
  }

  /** What it makes of the socket. */
  ghost function Waited(k: Sock, items: seq<Item>): Sock
    requires SockInv(k) && ItemsOk(k.ep.cfg, items)
  {
    UpdateInv(k);
    Update(PollAll(Update(k), items))
  }

  lemma PollFollows(k: Sock, v: System, evs: seq<Event>, who: Caller)
    requires Inv(v) && Follows(k, v) && SockInv(k) && Wait(v, evs, who)
    ensures ItemsOk(k.ep.cfg, Items(v, evs, who)) && Follows(PollAll(k, Items(v, evs, who)), After(v, evs, who))
  {
    hide Inv, Wait, Items, After, Scan, QueueInv, Live;
    WaitScans(k, v, evs, who);
  }

  lemma GetCompRuns(k: Sock, v: System, plans: seq<seq<Event>>, who: Caller)
    requires Inv(v) && Follows(k, v) && SockInv(k)
    ensures var p := GetComp(v, plans, who);
      && Exec(v, p.evs) == Some(p.v) && Inv(p.v) && Still(v, p.v, who)
      && ItemsOk(k.ep.cfg, p.waits[0]) && Follows(Waited(k, p.waits[0]), p.v)
  {
    hide Inv, Wait, Items, After, PollAll, SockInv, Core, Follows, Updated, CreditEvents, Exec, Update;
    SockShape(k);
    InvGives(v);
    UpdateRuns(k, v);
    UpdateInv(k);
    var v1 := Updated(v);
    var w := Chosen(v1, plans, who);
    ChosenWaits(v1, plans, who);
    WaitExec(v1, w, who);
    PollFollows(Update(k), v1, w, who);
    var v2 := After(v1, w, who);
    InvGives(v2);
    UpdateRuns(PollAll(Update(k), Items(v1, w, who)), v2);
    ExecAppend(v, CreditEvents(v), w);
    ExecAppend(v, CreditEvents(v) + w, CreditEvents(v2));
  }

  /** The head of an iteration: nothing if the call can go on, else rs_get_comp. */
  ghost function Head(v: System, goesOn: bool, plans: seq<seq<Event>>, who: Caller): Part
    requires Inv(v)
  {
    if goesOn then Part([], v, []) else GetComp(v, plans, who)
  }

  function Others<T>(goesOn: bool, plans: seq<T>): seq<T> {
    if goesOn || plans == [] then plans else plans[1..]
  }

  /** Two parts of a call with an event of its own between them. */
  function Joined(p: Part, act: Act, q: Part): Part {
    Part(p.evs + [Event(SideA, act)] + q.evs, q.v, p.waits + q.waits)
  }

  lemma JoinedRuns(v: System, p: Part, act: Act, q: Part)
    requires Exec(v, p.evs) == Some(p.v) && Enabled(p.v, act) && Exec(Step(p.v, act), q.evs) == Some(q.v)
    ensures Exec(v, Joined(p, act, q).evs) == Some(q.v) && Joined(p, act, q).v == q.v
  {
    hide Enabled, Step;
    var mine := [Event(SideA, act)];
    assert mine[1..] == [];
    assert Exec(p.v, mine) == Some(Step(p.v, act));
    ExecAppend(v, p.evs, mine);
    ExecAppend(v, p.evs + mine, q.evs);
  }

  // ---- rsend and rsendv ----

  /** The items that a head waited for, as Ready and Arrived take them. */
  function Seen(p: Part): seq<Item> {
    if p.waits == [] then [] else p.waits[0]
  }

  lemma NoItemsOk(c: Config)
    ensures ItemsOk(c, [])
  {
  }

  lemma ReadyRuns(k: Sock, v: System, plans: seq<seq<Event>>)
    requires Inv(v) && Follows(k, v) && SockInv(k)
    ensures var p := Head(v, CanSend(k.ep.cfg, k.ep.tx), plans, Sender);
      && Exec(v, p.evs) == Some(p.v) && Inv(p.v) && Still(v, p.v, Sender)
      && ItemsOk(k.ep.cfg, Seen(p)) && Follows(Ready(k, Seen(p)).0, p.v)
      && |p.waits| == (if CanSend(k.ep.cfg, k.ep.tx) then 0 else 1)
  {
    hide Inv, Follows, GetComp, PollAll, Update, ItemsOk, Core;
    NoItemsOk(k.ep.cfg);
    SockShape(k);
    if !CanSend(k.ep.cfg, k.ep.tx) {
      GetCompRuns(k, v, plans, Sender);
      ReadyIsWaited(k, GetComp(v, plans, Sender).waits[0]);
    }
  }

  /** A head that need not wait looks at nothing. */
  lemma ReadySkips(k: Sock, items: seq<Item>)
    requires SockInv(k) && ItemsOk(k.ep.cfg, items)
    ensures ItemsOk(k.ep.cfg, []) && (CanSend(k.ep.cfg, k.ep.tx) ==> Ready(k, items) == Ready(k, []))
  {
    hide Core;
  }

  lemma ReadyIsWaited(k: Sock, items: seq<Item>)
    requires SockInv(k) && ItemsOk(k.ep.cfg, items) && !CanSend(k.ep.cfg, k.ep.tx)
    ensures Ready(k, items).0 == Waited(k, items)
  {
    hide Core, PollAll, Update;
  }

  /** A transfer that rsend makes is a step of the connection. */
  lemma AdvanceRuns(k: Sock, v: System, buf: seq<byte>, olen: nat, vectored: bool)
    requires Inv(v) && Follows(k, v) && SockInv(k) && CanSend(k.ep.cfg, k.ep.tx) && OlenOk(olen) && buf != []
    ensures var (k', n, _) := Advance(k, buf, olen, vectored); var act := Send(buf[..n], vectored);
      && Enabled(v, act) && Inv(Step(v, act)) && Follows(k', Step(v, act))
      && Step(v, act).a.h.m.sent == v.a.h.m.sent + buf[..n] && Step(v, act).b.h.m.recvd == v.b.h.m.recvd
  {
    hide Inv, QueueInv, Enabled, Step, PostsClose, Live, CanSend, Transfer;
    TransferIsStep(v, buf, olen, vectored);
    NextFits(k, olen, |buf|);
    var (n, _) := XferSize(k.ep.tx, olen, |buf|);
    var act := Send(buf[..n], vectored);
    StepInv(v, act);
    StepRecords(v, act);
    var wrs := Transfer(k.ep.cfg, k.ep.tx, buf[..n], vectored).1;
    OutAppend(k, Advance(k, buf, olen, vectored).0, wrs);
    SendAcked(v, buf[..n], vectored);
    assert v.a.link.acked + (v.a.link.inFlight + wrs) == v.a.link.Out() + wrs;
  }

  lemma SendAcked(v: System, data: seq<byte>, vectored: bool)
    requires Enabled(v, Send(data, vectored))
    ensures Step(v, Send(data, vectored)).a.link.acked == v.a.link.acked
  {
  }

  /** The loop of rsend or rsendv in the connection; plans[i] is what others do while
      it waits for the i-th time. */
  ghost function SendPart(k: Sock, v: System, buf: seq<byte>, olen: nat, plans: seq<seq<Event>>, vectored: bool): Part
    requires Inv(v) && Follows(k, v) && SockInv(k) && OlenOk(olen)
    decreases |buf|
  {
    if buf == [] then Part([], v, [])
    else
      var can := CanSend(k.ep.cfg, k.ep.tx);
      var p := Head(v, can, plans, Sender);
      ReadyRuns(k, v, plans);
      var (k1, err) := Ready(k, Seen(p));
      if err.Some? then p
      else
        AdvanceRuns(k1, p.v, buf, olen, vectored);
        var (k2, n, olen') := Advance(k1, buf, olen, vectored);
        var act := Send(buf[..n], vectored);
        Joined(p, act, SendPart(k2, Step(p.v, act), buf[n..], olen', Others(can, plans), vectored))
  }

  lemma WaitsJoin(c: Config, p: Part, q: Part, act: Act)
    requires |p.waits| <= 1 && ItemsOk(c, Seen(p)) && WaitsOk(c, q.waits)
    ensures WaitsOk(c, p.waits) && WaitsOk(c, Joined(p, act, q).waits) && ItemsOk(c, First(Joined(p, act, q).waits))
    ensures First(Joined(p, act, q).waits) == if p.waits == [] then First(q.waits) else Seen(p)
    ensures p.waits != [] ==> Rest(Joined(p, act, q).waits) == q.waits
    ensures p.waits == [] ==> Joined(p, act, q).waits == q.waits
  {
  }

  /** One iteration of the send loop, without a wait or after one. */
  lemma SendLoopJoins(k: Sock, buf: seq<byte>, olen: nat, vectored: bool, p: Part, act: Act, q: Part)
    requires SockInv(k) && OlenOk(olen) && buf != [] && ItemsOk(k.ep.cfg, Seen(p))
    requires Shape(k.ep) && |p.waits| == (if CanSend(k.ep.cfg, k.ep.tx) then 0 else 1)
    requires WaitsOk(k.ep.cfg, q.waits) && Ready(k, Seen(p)).1.None?
    ensures WaitsOk(k.ep.cfg, Joined(p, act, q).waits)
    ensures var (k2, n, olen') := Advance(Ready(k, Seen(p)).0, buf, olen, vectored);
      var (k', sent, _) := SendLoop(k, buf, olen, Joined(p, act, q).waits, vectored);
      var (k'', more, _) := SendLoop(k2, buf[n..], olen', q.waits, vectored);
      k' == k'' && sent == n + more && buf[..sent] == buf[..n] + buf[n..][..more]
  {
    hide Core, OlenOk, WaitsOk, ItemsOk, Advance, Ready, CanSend, Joined;
    WaitsJoin(k.ep.cfg, p, q, act);
    var waits := Joined(p, act, q).waits;
    ReadySkips(k, First(waits));
  }

  lemma SendLoopStops(k: Sock, buf: seq<byte>, olen: nat, vectored: bool, p: Part)
    requires SockInv(k) && OlenOk(olen) && buf != [] && ItemsOk(k.ep.cfg, Seen(p))
    requires Shape(k.ep) && |p.waits| == (if CanSend(k.ep.cfg, k.ep.tx) then 0 else 1)
    requires Ready(k, Seen(p)).1.Some?
    ensures WaitsOk(k.ep.cfg, p.waits)
    ensures var (k', sent, _) := SendLoop(k, buf, olen, p.waits, vectored); k' == Ready(k, Seen(p)).0 && sent == 0
  {
    hide Core, OlenOk, ItemsOk, Advance, CanSend, PollAll, Update;
  }

  /** In a send loop the socket goes where the connection goes, and what the
      connection has sent grows by what the loop accepted. */
  lemma {:induction false} SendPartRuns(k: Sock, v: System, buf: seq<byte>, olen: nat, plans: seq<seq<Event>>,
                                        vectored: bool)
    requires Inv(v) && Follows(k, v) && SockInv(k) && OlenOk(olen)
    ensures var p := SendPart(k, v, buf, olen, plans, vectored);
      && Exec(v, p.evs) == Some(p.v) && Inv(p.v) && WaitsOk(k.ep.cfg, p.waits)
      && var (k', sent, _) := SendLoop(k, buf, olen, p.waits, vectored);
      && Follows(k', p.v) && p.v.a.h.m.sent == v.a.h.m.sent + buf[..sent] && v.b.h.m.recvd <= p.v.b.h.m.recvd
    decreases |buf|
  {
    hide Inv, Follows, SockInv, Core, OlenOk, WaitsOk, ItemsOk, Exec, Head, Enabled, Step, Advance, Ready, CanSend,
         SendLoop, Joined, Seen, Others;
    SockShape(k);
    if buf == [] {
      EmptyPart(k, v, olen, vectored);
    } else {
      var can := CanSend(k.ep.cfg, k.ep.tx);
      var p := Head(v, can, plans, Sender);
      ReadyRuns(k, v, plans);
      var (k1, err) := Ready(k, Seen(p));
      if err.None? {
        AdvanceRuns(k1, p.v, buf, olen, vectored);
        var (k2, n, olen') := Advance(k1, buf, olen, vectored);
        var act := Send(buf[..n], vectored);
        var q := SendPart(k2, Step(p.v, act), buf[n..], olen', Others(can, plans), vectored);
        SendPartRuns(k2, Step(p.v, act), buf[n..], olen', Others(can, plans), vectored);
        JoinedRuns(v, p, act, q);
        SendLoopJoins(k, buf, olen, vectored, p, act, q);
      } else {
        SendLoopStops(k, buf, olen, vectored, p);
      }
    }
  }

  lemma EmptyPart(k: Sock, v: System, olen: nat, vectored: bool)
    requires SockInv(k) && OlenOk(olen)
    ensures Exec(v, []) == Some(v) && WaitsOk(k.ep.cfg, []) && SendLoop(k, [], olen, [], vectored) == (k, 0, None)
  {
    hide Core;
  }

  // ---- pending iomap messages ----

  lemma IomapRuns(k: Sock, v: System)
    requires Inv(v) && Follows(k, v) && SockInv(k) && CanSend(k.ep.cfg, k.ep.tx) && k.iomaps != []
    ensures var act := Act.Iomap(k.iomaps[0].bytes, k.iomaps[0].index);
      && IOMAP_BYTES <= k.ep.cfg.sbufSize && SockInv(PostIomap(k))
      && Enabled(v, act) && Inv(Step(v, act)) && Still(v, Step(v, act), Sender) && Follows(PostIomap(k), Step(v, act))
  {
    hide DirInv, QueueInv, Live, Lengths, SendIomap, CanSend;
    PostIomapInv(k);
    var act := Act.Iomap(k.iomaps[0].bytes, k.iomaps[0].index);
    var (tx, wrs) := SendIomap(k.ep.cfg, k.ep.tx, k.iomaps[0].bytes, k.iomaps[0].index);
    OutAppend(k, PostIomap(k), wrs);
    PostedOut(v.a, v.a.ep.(tx := tx), wrs);
    IomapInv(v, k.iomaps[0].bytes, k.iomaps[0].index);
  }

  /** rs_send_iomaps in the connection: what happens, the plans left, the socket and
      the error. */
  ghost function IomapPart(k: Sock, v: System, plans: seq<seq<Event>>): (Part, seq<seq<Event>>, Sock, Option<Errno>)
    requires Inv(v) && Follows(k, v) && SockInv(k)
    decreases |k.iomaps|
  {
    if k.iomaps == [] then (Part([], v, []), plans, k, None)
    else
      var can := CanSend(k.ep.cfg, k.ep.tx);
      var p := Head(v, can, plans, Sender);
      ReadyRuns(k, v, plans);
      var (k1, err) := Ready(k, Seen(p));
      if err.Some? then (p, Others(can, plans), k1, err)
      else
        IomapRuns(k1, p.v);
        var act := Act.Iomap(k1.iomaps[0].bytes, k1.iomaps[0].index);
        var (q, left, k', err') := IomapPart(PostIomap(k1), Step(p.v, act), Others(can, plans));
        (Joined(p, act, q), left, k', err')
  }

  lemma IomapLoopJoins(k: Sock, p: Part, act: Act, q: Part, tail: seq<seq<Item>>)
    requires SockInv(k) && k.iomaps != [] && ItemsOk(k.ep.cfg, Seen(p))
    requires Shape(k.ep) && |p.waits| == (if CanSend(k.ep.cfg, k.ep.tx) then 0 else 1)
    requires WaitsOk(k.ep.cfg, q.waits + tail) && Ready(k, Seen(p)).1.None?
    ensures var k1 := Ready(k, Seen(p)).0;
      && IOMAP_BYTES <= k1.ep.cfg.sbufSize && Shape(k1.ep) && IomapsOk(k1.iomaps) && SockInv(PostIomap(k1))
      && PostIomap(k1).ep.cfg == k.ep.cfg && WaitsOk(k.ep.cfg, Joined(p, act, q).waits + tail)
      && IomapLoop(k, Joined(p, act, q).waits + tail) == IomapLoop(PostIomap(k1), q.waits + tail)
  {
    hide QueueInv, Live, Lengths, WaitsOk, ItemsOk, Ready, CanSend, PostIomap, Joined;
    var q' := q.(waits := q.waits + tail);
    WaitsJoin(k.ep.cfg, p, q', act);
    JoinedTail(p, act, q, tail);
    ReadySkips(k, First(Joined(p, act, q').waits));
    PostIomapInv(Ready(k, Seen(p)).0);
  }

  lemma JoinedTail(p: Part, act: Act, q: Part, tail: seq<seq<Item>>)
    ensures Joined(p, act, q).waits + tail == Joined(p, act, q.(waits := q.waits + tail)).waits
  {
  }

  lemma IomapLoopStops(k: Sock, p: Part, tail: seq<seq<Item>>)
    requires SockInv(k) && k.iomaps != [] && ItemsOk(k.ep.cfg, Seen(p)) && WaitsOk(k.ep.cfg, tail)
    requires Shape(k.ep) && |p.waits| == (if CanSend(k.ep.cfg, k.ep.tx) then 0 else 1)
    requires Ready(k, Seen(p)).1.Some?
    ensures WaitsOk(k.ep.cfg, p.waits + tail)
    ensures var (k1, err) := Ready(k, Seen(p)); IomapLoop(k, p.waits + tail) == (k1, tail, err)
  {
    hide Core, ItemsOk, CanSend, PollAll, Update;
    assert p.waits + tail == [Seen(p)] + tail;
    assert ([Seen(p)] + tail)[1..] == tail;
  }

  lemma IomapsDone(k: Sock, v: System, tail: seq<seq<Item>>)
    requires SockInv(k) && k.iomaps == [] && WaitsOk(k.ep.cfg, tail)
    ensures Exec(v, []) == Some(v) && [] + tail == tail && IomapLoop(k, tail) == (k, tail, None)
  {
    hide Core, WaitsOk;
  }

  lemma {:induction false} IomapPartRuns(k: Sock, v: System, plans: seq<seq<Event>>, tail: seq<seq<Item>>)
    requires Inv(v) && Follows(k, v) && SockInv(k) && WaitsOk(k.ep.cfg, tail)
    ensures var (p, _, k', err) := IomapPart(k, v, plans);
      && Exec(v, p.evs) == Some(p.v) && Inv(p.v) && Still(v, p.v, Sender) && WaitsOk(k.ep.cfg, p.waits + tail)
      && IomapLoop(k, p.waits + tail) == (k', tail, err) && Follows(k', p.v) && SockInv(k') && k'.ep.cfg == k.ep.cfg
    decreases |k.iomaps|
  {
    hide Inv, Follows, SockInv, Core, WaitsOk, ItemsOk, Exec, Head, Enabled, Step, Ready, CanSend, IomapLoop, Joined,
         PostIomap;
    SockShape(k);
    if k.iomaps == [] {
      IomapsDone(k, v, tail);
    } else {
      var can := CanSend(k.ep.cfg, k.ep.tx);
      var p := Head(v, can, plans, Sender);
      ReadyRuns(k, v, plans);
      var (k1, err) := Ready(k, Seen(p));
      if err.None? {
        SockShape(k1);
        IomapRuns(k1, p.v);
        var act := Act.Iomap(k1.iomaps[0].bytes, k1.iomaps[0].index);
        var (q, _, _, _) := IomapPart(PostIomap(k1), Step(p.v, act), Others(can, plans));
        IomapStays(k1);
        IomapPartRuns(PostIomap(k1), Step(p.v, act), Others(can, plans), tail);
        JoinedRuns(v, p, act, q);
        IomapLoopJoins(k, p, act, q, tail);
      } else {
        IomapLoopStops(k, p, tail);
      }
    }
  }

  lemma IomapStays(k: Sock)
    requires Shape(k.ep) && k.iomaps != [] && IomapsOk(k.iomaps) && IOMAP_BYTES <= k.ep.cfg.sbufSize
    ensures PostIomap(k).ep.cfg == k.ep.cfg && |PostIomap(k).iomaps| < |k.iomaps|
  {
  }

  // ---- the whole of rsend ----

  function Then(p: Part, q: Part): Part {
    Part(p.evs + q.evs, q.v, p.waits + q.waits)
  }

  /** rsend or rsendv in the connection. */
  ghost function SendCallPart(k: Sock, v: System, buf: seq<byte>, plans: seq<seq<Event>>, vectored: bool): Part
    requires Inv(v) && Follows(k, v) && SockInv(k)
  {
    IomapPartRuns(k, v, plans, []);
    var (p, left, k', err) := IomapPart(k, v, plans);
    if err.Some? then p else Then(p, SendPart(k', p.v, buf, OLAP_START_SIZE, left, vectored))
  }

  lemma SendCallRuns(k: Sock, v: System, buf: seq<byte>, plans: seq<seq<Event>>, vectored: bool)
    requires Inv(v) && Follows(k, v) && SockInv(k)
    ensures var p := SendCallPart(k, v, buf, plans, vectored);
      && Exec(v, p.evs) == Some(p.v) && WaitsOk(k.ep.cfg, p.waits)
      && var (k', sent, _) := SendCall(k, buf, p.waits, vectored);
      && Follows(k', p.v) && p.v.a.h.m.sent == v.a.h.m.sent + buf[..sent] && v.b.h.m.recvd <= p.v.b.h.m.recvd
  {
    hide Inv, Follows, SockInv, WaitsOk, Exec, IomapPart, SendPart, IomapLoop, SendLoop;
    NoWaits(k.ep.cfg);
    IomapPartRuns(k, v, plans, []);
    var (p, left, k', err) := IomapPart(k, v, plans);
    assert p.waits + [] == p.waits && v.a.h.m.sent + [] == v.a.h.m.sent;
    if err.None? {
      var q := SendPart(k', p.v, buf, OLAP_START_SIZE, left, vectored);
      SendPartRuns(k', p.v, buf, OLAP_START_SIZE, left, vectored);
      IomapPartRuns(k, v, plans, q.waits);
      ExecAppend(v, p.evs, q.evs);
    }
  }

  lemma NoWaits(c: Config)
    ensures WaitsOk(c, [])
  {
  }

  // ---- rrecv ----

  /** The socket after one pass of the copy loop. */
  ghost function Chunked(k: Sock, left: nat): (r: Sock)
    requires SockInv(k) && HaveRdata(k.ep.rx) && left > 0
    ensures SockInv(r)
  {
    ChunkProgress(k.ep.cfg, k.ep.rx, left);
    k.(ep := k.ep.(rx := RecvChunk(k.ep.cfg, k.ep.rx, left).0))
  }

  lemma ChunkRuns(k: Sock, v: System, left: nat)
    requires Inv(v) && Follows(k, v) && SockInv(k) && HaveRdata(k.ep.rx) && left > 0
    ensures HeadFits(k.ep.cfg, k.ep.rx) && Enabled(v, Recv(left))
    ensures var v' := Step(v, Recv(left));
      && Inv(v') && Follows(Chunked(k, left), v') && v'.a.h.m.sent == v.a.h.m.sent && v'.b.h.m.sent == v.b.h.m.sent
      && v'.b.h.m.recvd == v.b.h.m.recvd + RecvChunk(k.ep.cfg, k.ep.rx, left).1
  {
    hide DirInv, QueueInv, Live, RecvChunk;
    ChunkProgress(k.ep.cfg, k.ep.rx, left);
    RecvInv(v, left);
  }

  /** The copy loop in the connection. */
  ghost function CopyPart(k: Sock, v: System, left: nat): Part
    requires Inv(v) && Follows(k, v) && SockInv(k)
    decreases Between(k.ep.cfg, k.ep.rx.rmsgHead, k.ep.rx.rmsgTail), left
  {
    if left == 0 || !HaveRdata(k.ep.rx) then Part([], v, [])
    else
      ChunkRuns(k, v, left);
      ChunkProgress(k.ep.cfg, k.ep.rx, left);
      var out := RecvChunk(k.ep.cfg, k.ep.rx, left).1;
      Joined(Part([], v, []), Recv(left), CopyPart(Chunked(k, left), Step(v, Recv(left)), left - |out|))
  }

  lemma CopiedStep(k: Sock, left: nat)
    requires SockInv(k) && HaveRdata(k.ep.rx) && left > 0
    ensures HeadFits(k.ep.cfg, k.ep.rx)
    ensures var out := RecvChunk(k.ep.cfg, k.ep.rx, left).1; var (k', rest) := Copied(Chunked(k, left), left - |out|);
      && 1 <= |out| <= left && Copied(k, left) == (k', out + rest)
      && (Between(k.ep.cfg, Chunked(k, left).ep.rx.rmsgHead, Chunked(k, left).ep.rx.rmsgTail)
            < Between(k.ep.cfg, k.ep.rx.rmsgHead, k.ep.rx.rmsgTail)
          || (Chunked(k, left).ep.rx.rmsgHead == k.ep.rx.rmsgHead && Chunked(k, left).ep.rx.rmsgTail == k.ep.rx.rmsgTail
              && |out| == left))
  {
    hide QueueInv, Live, RecvChunk;
    ChunkProgress(k.ep.cfg, k.ep.rx, left);
  }

  lemma CopiedNone(k: Sock, v: System, left: nat)
    requires SockInv(k) && (left == 0 || !HaveRdata(k.ep.rx))
    ensures Copied(k, left) == (k, []) && Exec(v, []) == Some(v)
  {
    hide QueueInv, Live;
  }

  lemma {:induction false} CopyPartRuns(k: Sock, v: System, left: nat)
    requires Inv(v) && Follows(k, v) && SockInv(k)
    ensures var p := CopyPart(k, v, left); var (k', out) := Copied(k, left);
      && Exec(v, p.evs) == Some(p.v) && p.waits == [] && Inv(p.v) && Follows(k', p.v)
      && p.v.a.h.m.sent == v.a.h.m.sent && p.v.b.h.m.sent == v.b.h.m.sent && p.v.b.h.m.recvd == v.b.h.m.recvd + out
    decreases Between(k.ep.cfg, k.ep.rx.rmsgHead, k.ep.rx.rmsgTail), left
  {
    hide Inv, Follows, QueueInv, Live, Exec, Enabled, Step, RecvChunk, Copied, Between, ValidConfig, TxShape;
    if left == 0 || !HaveRdata(k.ep.rx) {
      CopiedNone(k, v, left);
      assert v.b.h.m.recvd + [] == v.b.h.m.recvd;
    } else {
      CopiedNone(k, v, 0);
      ChunkRuns(k, v, left);
      CopiedStep(k, left);
      var out := RecvChunk(k.ep.cfg, k.ep.rx, left).1;
      var v1, k1 := Step(v, Recv(left)), Chunked(k, left);
      CopyPartRuns(k1, v1, left - |out|);
      JoinedRuns(v, Part([], v, []), Recv(left), CopyPart(k1, v1, left - |out|));
      var rest := Copied(k1, left - |out|).1;
      assert v.b.h.m.recvd + out + rest == v.b.h.m.recvd + (out + rest);
    }
  }

  lemma ArrivedRuns(k: Sock, v: System, plans: seq<seq<Event>>)
    requires Inv(v) && Follows(k, v) && SockInv(k)
    ensures var p := Head(v, HaveRdata(k.ep.rx), plans, Reader);
      && Exec(v, p.evs) == Some(p.v) && Inv(p.v) && Still(v, p.v, Reader)
      && ItemsOk(k.ep.cfg, Seen(p)) && Follows(Arrived(k, Seen(p)).0, p.v)
      && |p.waits| == (if HaveRdata(k.ep.rx) then 0 else 1)
  {
    hide Inv, Follows, GetComp, PollAll, Update, ItemsOk, Core;
    NoItemsOk(k.ep.cfg);
    if !HaveRdata(k.ep.rx) {
      GetCompRuns(k, v, plans, Reader);
      ArrivedIsWaited(k, GetComp(v, plans, Reader).waits[0]);
    }
  }

  lemma ArrivedIsWaited(k: Sock, items: seq<Item>)
    requires SockInv(k) && ItemsOk(k.ep.cfg, items) && !HaveRdata(k.ep.rx)
    ensures Arrived(k, items).0 == Waited(k, items)
  {
    hide Core, PollAll, Update;
  }

  lemma ArrivedSkips(k: Sock, items: seq<Item>)
    requires SockInv(k) && ItemsOk(k.ep.cfg, items)
    ensures ItemsOk(k.ep.cfg, []) && (HaveRdata(k.ep.rx) ==> Arrived(k, items) == Arrived(k, []))
  {
    hide Core;
  }

  /** With no plan left a wait ends the call. */
  lemma NoPlan(k: Sock, v: System)
    requires Inv(v) && Follows(k, v) && SockInv(k) && !HaveRdata(k.ep.rx)
    ensures Seen(Head(v, false, [], Reader)) == [] && ItemsOk(k.ep.cfg, [])
    ensures Arrived(k, []).1.None? ==> !Arrived(k, []).0.ep.st.readable
  {
    hide Inv, Core, PollAll, Update;
    NothingArrives(k);
  }

  /** rrecv in the connection. */
  ghost function RecvPart(k: Sock, v: System, len: nat, plans: seq<seq<Event>>, peek: bool, waitAll: bool): Part
    requires Inv(v) && Follows(k, v) && SockInv(k)
    decreases |plans|, if HaveRdata(k.ep.rx) then 1 else 0
  {
    var have := HaveRdata(k.ep.rx);
    var p := Head(v, have, plans, Reader);
    ArrivedRuns(k, v, plans);
    var (k1, err) := Arrived(k, Seen(p));
    if err.Some? || peek then p
    else
      var (k2, out) := Copied(k1, len);
      var c := CopyPart(k1, p.v, len);
      CopyPartRuns(k1, p.v, len);
      if |out| < len && waitAll && k2.ep.st.readable then
        assert have || plans != [] by {
          if !have && plans == [] {
            NoPlan(k, v);
          }
        }
        Then(Then(p, c), RecvPart(k2, c.v, len - |out|, Others(have, plans), peek, waitAll))
      else Then(p, c)
  }

  /** What rrecv does when its head has seen `p`: stop, or copy and stop or go on. */
  lemma RecvCallStops(k: Sock, len: nat, peek: bool, waitAll: bool, p: Part)
    requires SockInv(k) && ItemsOk(k.ep.cfg, Seen(p)) && |p.waits| == (if HaveRdata(k.ep.rx) then 0 else 1)
    ensures WaitsOk(k.ep.cfg, p.waits)
    ensures var (k1, err) := Arrived(k, Seen(p)); var r := RecvCall(k, len, p.waits, peek, waitAll);
      && (err.Some? ==> r == (k1, [], err))
      && (err.None? && peek ==> r == (k1, Copied(k1, len).1, None))
      && (err.None? && !peek ==>
            var (k2, out) := Copied(k1, len);
            !(|out| < len && waitAll && k2.ep.st.readable) ==> r == (k2, out, None))
  {
    hide Core, ItemsOk, Arrived, Copied;
  }

  lemma RecvCallGoesOn(k: Sock, len: nat, waitAll: bool, p: Part, waits: seq<seq<Item>>)
    requires SockInv(k) && ItemsOk(k.ep.cfg, Seen(p)) && |p.waits| == (if HaveRdata(k.ep.rx) then 0 else 1)
    requires WaitsOk(k.ep.cfg, waits) && Arrived(k, Seen(p)).1.None?
    requires var (k2, out) := Copied(Arrived(k, Seen(p)).0, len); |out| < len && waitAll && k2.ep.st.readable
    ensures WaitsOk(k.ep.cfg, p.waits + waits)
    ensures var (k2, out) := Copied(Arrived(k, Seen(p)).0, len);
      var (k', rest, err) := RecvCall(k2, len - |out|, waits, false, waitAll);
      RecvCall(k, len, p.waits + waits, false, waitAll) == (k', out + rest, err)
  {
    hide Core, ItemsOk, Arrived, Copied;
    if HaveRdata(k.ep.rx) {
      assert p.waits + waits == waits;
      ArrivedSkips(k, First(waits));
    } else {
      assert p.waits + waits == [Seen(p)] + waits && ([Seen(p)] + waits)[1..] == waits;
    }
  }

  /** What the copy loop returns is what comes next in the stream. */
  lemma CopiedIsNext(k: Sock, v: System, len: nat)
    requires Inv(v) && Follows(k, v) && SockInv(k)
    ensures v.b.h.m.recvd + Copied(k, len).1 <= v.b.h.m.sent
  {
    hide Inv, Follows, SockInv, Exec, Copied, CopyPart;
    CopyPartRuns(k, v, len);
    PrefixHeld(CopyPart(k, v, len).v);
  }

  lemma PrefixHeld(v: System)
    requires Inv(v)
    ensures v.b.h.m.recvd <= v.b.h.m.sent
  {
    hide NodeInv, SentWithin, LimitsGiven, SpaceGiven, SpaceUsed, TargetInv, RingInv, MemInv, OffsetOk, FwdPipe,
         ArrPipe, BwdPipe, ArrLimits;
  }

  lemma ThenRuns(v: System, p: Part, q: Part)
    requires Exec(v, p.evs) == Some(p.v) && Exec(p.v, q.evs) == Some(q.v)
    ensures Exec(v, Then(p, q).evs) == Some(q.v) && Then(p, q).v == q.v && Then(p, q).waits == p.waits + q.waits
  {
    ExecAppend(v, p.evs, q.evs);
  }

  /** An rrecv returns bytes that come next, and takes them unless it peeks. */
  lemma {:induction false} RecvPartRuns(k: Sock, v: System, len: nat, plans: seq<seq<Event>>, peek: bool, waitAll: bool)
    requires Inv(v) && Follows(k, v) && SockInv(k)
    ensures var p := RecvPart(k, v, len, plans, peek, waitAll);
      && Exec(v, p.evs) == Some(p.v) && Inv(p.v) && WaitsOk(k.ep.cfg, p.waits)
      && var (k', out, _) := RecvCall(k, len, p.waits, peek, waitAll);
      && Follows(k', p.v) && v.a.h.m.sent <= p.v.a.h.m.sent && v.b.h.m.recvd + out <= p.v.b.h.m.sent
      && p.v.b.h.m.recvd == v.b.h.m.recvd + if peek then [] else out
    decreases |plans|, if HaveRdata(k.ep.rx) then 1 else 0
  {
    hide Inv, Follows, SockInv, Core, WaitsOk, ItemsOk, Exec, Head, Arrived, Copied, CopyPart, RecvCall, Seen, Then;
    var have := HaveRdata(k.ep.rx);
    var p := Head(v, have, plans, Reader);
    ArrivedRuns(k, v, plans);
    RecvCallStops(k, len, peek, waitAll, p);
    var (k1, err) := Arrived(k, Seen(p));
    assert v.b.h.m.recvd + [] == v.b.h.m.recvd;
    PrefixHeld(p.v);
    CopiedIsNext(k1, p.v, len);
    if err.None? && !peek {
      var (k2, out) := Copied(k1, len);
      var c := CopyPart(k1, p.v, len);
      CopyPartRuns(k1, p.v, len);
      ThenRuns(v, p, c);
      if |out| < len && waitAll && k2.ep.st.readable {
        assert have || plans != [] by {
          if !have && plans == [] {
            NoPlan(k, v);
          }
        }
        var q := RecvPart(k2, c.v, len - |out|, Others(have, plans), peek, waitAll);
        RecvPartRuns(k2, c.v, len - |out|, Others(have, plans), peek, waitAll);
        ThenRuns(v, Then(p, c), q);
        RecvCallGoesOn(k, len, waitAll, p, q.waits);
        assert p.waits + [] + q.waits == p.waits + q.waits;
        var rest := RecvCall(k2, len - |out|, q.waits, peek, waitAll).1;
        assert v.b.h.m.recvd + out + rest == v.b.h.m.recvd + (out + rest);
      } else {
        assert p.waits + [] == p.waits;
      }
    }
  }

  // ---- calls in a run ----

  /** rsend or rsendv made anywhere in a run goes on as a run, and what `side` has
      sent grows by exactly the bytes the call accepts, while other threads read, give
      credits, post keepalives and shut down. */
  lemma SendInRun(ca: Config, cb: Config, evs: seq<Event>, side: Side, v: System, k: Sock, buf: seq<byte>,
                  plans: seq<seq<Event>>, vectored: bool)
    requires Reaches(ca, cb, evs, side, v) && Follows(k, v) && OwnPart(k)
    ensures Inv(v) && SockInv(k)
    ensures var p := SendCallPart(k, v, buf, plans, vectored); var evs' := evs + Turned(p.evs, side);
      && WaitsOk(k.ep.cfg, p.waits) && Reaches(ca, cb, evs', side, p.v)
      && var (k', sent, _) := SendCall(k, buf, p.waits, vectored);
      && Follows(k', p.v) && SockInv(k') && Sent(evs', side) == Sent(evs, side) + buf[..sent]
      && Received(ca, cb, evs, side) <= Received(ca, cb, evs', side)
  {
    hide Inv, Follows, SockInv, WaitsOk, Exec, SendCallPart, SendCall, Run, Sent, Received, BeforeClose;
    ReachedInv(ca, cb, evs, side, v, k);
    SendCallRuns(k, v, buf, plans, vectored);
    var p := SendCallPart(k, v, buf, plans, vectored);
    CallReaches(ca, cb, evs, side, v, p);
    BothRecorded(ca, cb, evs, side, v);
    BothRecorded(ca, cb, evs + Turned(p.evs, side), side, p.v);
  }

  lemma CallReaches(ca: Config, cb: Config, evs: seq<Event>, side: Side, v: System, p: Part)
    requires Reaches(ca, cb, evs, side, v) && Exec(v, p.evs) == Some(p.v)
    ensures Reaches(ca, cb, evs + Turned(p.evs, side), side, p.v)
  {
    hide Run, Exec, Turned;
    TurnedExec(v, p.evs, side);
    RunExec(ca, cb, evs, View(v, side), Turned(p.evs, side));
  }

  lemma BothRecorded(ca: Config, cb: Config, evs: seq<Event>, side: Side, v: System)
    requires Reaches(ca, cb, evs, side, v)
    ensures v.a.h.m.sent == Sent(evs, side) && v.b.h.m.recvd == Received(ca, cb, evs, side)
    ensures v.b.h.m.sent == Sent(evs, Other(side))
  {
    hide Run, Sent, Received, BeforeClose;
    RunRecords(ca, cb, evs, side, v);
    RunRecords(ca, cb, evs, Other(side), Swap(v));
  }

  /** rrecv made anywhere in a run goes on as a run, while other threads send, give
      credits, post keepalives and shut down. It returns the bytes that come next in
      what the peer has sent, and takes them unless it peeks. If it says end of stream
      to a side that keeps reading, the peer did post a close message, and every byte
      sent before that was returned. */
  lemma RecvInRun(ca: Config, cb: Config, evs: seq<Event>, side: Side, v: System, k: Sock, len: nat,
                  plans: seq<seq<Event>>, peek: bool, waitAll: bool)
    requires Reaches(ca, cb, evs, side, v) && Follows(k, v) && OwnPart(k)
    ensures Inv(v) && SockInv(k)
    ensures var p := RecvPart(k, v, len, plans, peek, waitAll); var evs' := evs + Turned(p.evs, side);
      && WaitsOk(k.ep.cfg, p.waits) && Reaches(ca, cb, evs', side, p.v)
      && var (k', out, err) := RecvCall(k, len, p.waits, peek, waitAll);
      && Follows(k', p.v) && SockInv(k') && Sent(evs, side) <= Sent(evs', side)
      && Received(ca, cb, evs, side) + out <= Sent(evs', Other(side))
      && Received(ca, cb, evs', side) == Received(ca, cb, evs, side) + (if peek then [] else out)
      && (len > 0 && out == [] && err.None? && KeepsReading(evs', side) ==>
            var before := BeforeClose(ca, cb, evs', Other(side));
            before.Some? && before.value <= Received(ca, cb, evs, side))
  {
    hide Inv, Follows, SockInv, WaitsOk, Exec, RecvPart, RecvCall, Run, Sent, Received, BeforeClose, KeepsReading;
    ReachedInv(ca, cb, evs, side, v, k);
    RecvPartRuns(k, v, len, plans, peek, waitAll);
    var p := RecvPart(k, v, len, plans, peek, waitAll);
    CallReaches(ca, cb, evs, side, v, p);
    var evs' := evs + Turned(p.evs, side);
    BothRecorded(ca, cb, evs, side, v);
    BothRecorded(ca, cb, evs', side, p.v);
    var (k', out, err) := RecvCall(k, len, p.waits, peek, waitAll);
    if len > 0 && out == [] && err.None? && KeepsReading(evs', side) {
      EndSeen(k, len, p.waits, peek, waitAll, p.v);
      EndOfStream(ca, cb, evs', Other(side), Swap(p.v));
    }
  }

  lemma EndSeen(k: Sock, len: nat, waits: seq<seq<Item>>, peek: bool, waitAll: bool, v: System)
    requires SockInv(k) && WaitsOk(k.ep.cfg, waits) && len > 0
    requires var (k', out, err) := RecvCall(k, len, waits, peek, waitAll); Follows(k', v) && out == [] && err.None?
    ensures !HaveRdata(v.a.ep.rx) && !v.a.ep.st.readable
  {
    hide Core, WaitsOk, RecvCall;
    EndExact(k, len, waits, peek, waitAll);
  }
}
