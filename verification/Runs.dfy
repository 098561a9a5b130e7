/** Runs of two connected rsockets, what an observer of a run sees, and the tie
    between those observations and the recorded history. */
module Runs {
  import opened Common
  import opened Wire
  import opened EndpointOps
  import opened Channel
  import opened ChannelSteps
  import opened Protocol
  import opened ProtocolInv

  datatype Side = SideA | SideB

  datatype Event = Event(side: Side, act: Act)

  function Other(side: Side): Side {
    if side.SideA? then SideB else SideA
  }

  /** The system with `side` in first place. */
  function View(s: System, side: Side): System {
    if side.SideA? then s else Swap(s)
  }

  ghost predicate Can(s: System, ev: Event) {
    Enabled(View(s, ev.side), ev.act)
  }

  ghost function Apply(s: System, ev: Event): System
    requires Can(s, ev)
  {
    View(Step(View(s, ev.side), ev.act), ev.side)
  }

  /** The state after the events `evs`, if each was possible when it happened. */
  ghost function Run(ca: Config, cb: Config, evs: seq<Event>): Option<System> {
    if evs == [] then Some(Init(ca, cb))
    else
      var n := |evs| - 1;
      match Run(ca, cb, evs[..n])
      case None => None
      case Some(s) => if Can(s, evs[n]) then Some(Apply(s, evs[n])) else None
  }

  /** The run `evs` leads to a system that looks like `v` from `side`. */
  ghost predicate Reaches(ca: Config, cb: Config, evs: seq<Event>, side: Side, v: System) {
    ValidConfig(ca) && ValidConfig(cb) && Run(ca, cb, evs) == Some(View(v, side))
  }

  lemma ViewInv(s: System, side: Side)
    ensures Inv(View(s, side)) <==> Inv(s)
  {
  }

  /** Every reachable state satisfies the invariant. */
  lemma {:induction false} RunInv(ca: Config, cb: Config, evs: seq<Event>, side: Side, v: System)
    requires Reaches(ca, cb, evs, side, v)
    ensures Inv(v)
    decreases |evs|
  {
    if evs == [] {
      InitInv(ca, cb);
      ViewInv(v, side);
    } else {
      var n := |evs| - 1;
      var ev, r := evs[n], Run(ca, cb, evs[..n]).value;
      RunInv(ca, cb, evs[..n], ev.side, View(r, ev.side));
      StepInv(View(r, ev.side), ev.act);
      ViewInv(Step(View(r, ev.side), ev.act), ev.side);
      ViewInv(v, side);
    }
  }

  // ---- what is observed ----

  /** The bytes `side` handed to rsend. */
  function Sent(evs: seq<Event>, side: Side): seq<byte> {
    if evs == [] then []
    else
      var n := |evs| - 1;
      Sent(evs[..n], side) + if evs[n].side == side && evs[n].act.Send? then evs[n].act.data else []
  }

  /** How many iomap messages `side` sent. */
  function Iomaps(evs: seq<Event>, side: Side): nat {
    if evs == [] then 0
    else
      var n := |evs| - 1;
      Iomaps(evs[..n], side) + if evs[n].side == side && evs[n].act.Iomap? then 1 else 0
  }

  /** What node a's step returns to its reader. */
  ghost function Returned(s: System, act: Act): seq<byte>
    requires Enabled(s, act)
  {
    if act.Recv? then RecvChunk(s.a.ep.cfg, s.a.ep.rx, act.left).1 else []
  }

  /** The bytes rrecv returned to `side`. */
  ghost function Received(ca: Config, cb: Config, evs: seq<Event>, side: Side): seq<byte>
    requires Run(ca, cb, evs).Some?
  {
    if evs == [] then []
    else
      var n := |evs| - 1;
      Received(ca, cb, evs[..n], side)
      + if evs[n].side == side then Returned(View(Run(ca, cb, evs[..n]).value, side), evs[n].act) else []
  }

  /** Node a's step posts a SHUTDOWN or DISCONNECT message. */
  ghost predicate PostsClose(s: System, act: Act) {
    match act
    case Close => EntryLeft(s.a.ep) && s.a.pending != Some(CTRL_KEEPALIVE)
    case _ => false
  }

  /** What `side` had sent when it posted its first close message, if it did. */
  ghost function BeforeClose(ca: Config, cb: Config, evs: seq<Event>, side: Side): Option<seq<byte>>
    requires Run(ca, cb, evs).Some?
  {
    if evs == [] then None
    else
      var n := |evs| - 1;
      var earlier := BeforeClose(ca, cb, evs[..n], side);
      if earlier.Some? then earlier
      else if evs[n].side == side && PostsClose(View(Run(ca, cb, evs[..n]).value, side), evs[n].act) then
        Some(Sent(evs[..n], side))
      else None
  }

  // ---- the history records it ----

  /** What a step of node a does to the recorded observations. */
  lemma StepRecords(s: System, act: Act)
    requires Enabled(s, act)
    ensures var m, m', p, p' := s.a.h.m, Step(s, act).a.h.m, s.b.h.m, Step(s, act).b.h.m;
      && m'.sent == m.sent + (if act.Send? then act.data else [])
      && m.lens <= m'.lens && m'.recvd == m.recvd
      && m'.closeAt == (if m.closeAt.None? && PostsClose(s, act) then Some(|m.lens|) else m.closeAt)
      && p'.recvd == p.recvd + Returned(s, act)
      && p'.sent == p.sent && p'.lens == p.lens && p'.closeAt == p.closeAt
    ensures var c, c', d, d' := s.a.h.c, Step(s, act).a.h.c, s.b.h.c, Step(s, act).b.h.c;
      && c'.iomaps == c.iomaps + (if act.Iomap? then 1 else 0) && d'.iomaps == d.iomaps
  {
    assert s.a.h.m.sent + [] == s.a.h.m.sent;
    assert s.b.h.m.recvd + [] == s.b.h.m.recvd;
  }

  /** How one event moves the observations recorded for one direction. */
  ghost predicate Moved(h: Hist, h': Hist, sent: seq<byte>, recvd: seq<byte>, iomaps: nat, closes: bool) {
    && h'.m.sent == h.m.sent + sent && h'.m.recvd == h.m.recvd + recvd && h'.c.iomaps == h.c.iomaps + iomaps
    && h.m.lens <= h'.m.lens && (closes ==> sent == [])
    && h'.m.closeAt == if h.m.closeAt.None? && closes then Some(|h.m.lens|) else h.m.closeAt
  }

  lemma EventMoves(s: System, ev: Event, side: Side)
    requires Can(s, ev)
    ensures var mine, v := ev.side == side, View(s, ev.side);
      Moved(View(s, side).a.h, View(Apply(s, ev), side).a.h,
            if mine && ev.act.Send? then ev.act.data else [],
            if mine then [] else Returned(v, ev.act),
            if mine && ev.act.Iomap? then 1 else 0,
            mine && PostsClose(v, ev.act))
  {
    StepRecords(View(s, ev.side), ev.act);
  }

  lemma SentEnd(v: System)
    requires Inv(v)
    ensures Start(v.a.h.m.lens, |v.a.h.m.lens|) == |v.a.h.m.sent|
  {
  }

  ghost predicate CloseRecorded(m: Msgs, close: Option<seq<byte>>) {
    match close
    case None => m.closeAt.None?
    case Some(before) =>
      && m.closeAt.Some? && m.closeAt.value <= |m.lens|
      && Start(m.lens, m.closeAt.value) == |before| && before <= m.sent
  }

  lemma CloseMoves(h: Hist, h': Hist, sent: seq<byte>, recvd: seq<byte>, iomaps: nat, closes: bool,
                   close: Option<seq<byte>>)
    requires CloseRecorded(h.m, close) && Moved(h, h', sent, recvd, iomaps, closes)
    requires Start(h.m.lens, |h.m.lens|) == |h.m.sent|
    ensures CloseRecorded(h'.m, if close.Some? then close else if closes then Some(h.m.sent) else None)
  {
    if h'.m.closeAt.Some? {
      StartPrefix(h.m.lens, h'.m.lens, h'.m.closeAt.value);
    }
  }

  /** The history of the direction `side` sends in is what was observed. */
  ghost predicate Recorded(ca: Config, cb: Config, evs: seq<Event>, h: Hist, side: Side)
    requires Run(ca, cb, evs).Some?
  {
    && h.m.sent == Sent(evs, side)
    && h.m.recvd == Received(ca, cb, evs, Other(side))
    && h.c.iomaps == Iomaps(evs, side)
    && CloseRecorded(h.m, BeforeClose(ca, cb, evs, side))
  }

  lemma {:induction false} RunRecords(ca: Config, cb: Config, evs: seq<Event>, side: Side, v: System)
    requires Reaches(ca, cb, evs, side, v)
    ensures Recorded(ca, cb, evs, v.a.h, side)
    decreases |evs|
  {
    if evs != [] {
      var n := |evs| - 1;
      var r, ev := Run(ca, cb, evs[..n]).value, evs[n];
      RunRecords(ca, cb, evs[..n], side, View(r, side));
      RunInv(ca, cb, evs[..n], side, View(r, side));
      SentEnd(View(r, side));
      EventMoves(r, ev, side);
      EventRecords(ca, cb, evs, r, View(r, side).a.h, v.a.h, side);
    }
  }

  lemma EventRecords(ca: Config, cb: Config, evs: seq<Event>, r: System, h: Hist, h': Hist, side: Side)
    requires evs != [] && Run(ca, cb, evs).Some? && Run(ca, cb, evs[..|evs| - 1]) == Some(r)
    requires Recorded(ca, cb, evs[..|evs| - 1], h, side) && Start(h.m.lens, |h.m.lens|) == |h.m.sent|
    requires var ev := evs[|evs| - 1]; var mine, v := ev.side == side, View(r, ev.side);
      Moved(h, h', if mine && ev.act.Send? then ev.act.data else [], if mine then [] else Returned(v, ev.act),
            if mine && ev.act.Iomap? then 1 else 0, mine && PostsClose(v, ev.act))
    ensures Recorded(ca, cb, evs, h', side)
  {
    var ev, prefix := evs[|evs| - 1], evs[..|evs| - 1];
    var mine, v := ev.side == side, View(r, ev.side);
    CloseMoves(h, h', if mine && ev.act.Send? then ev.act.data else [], if mine then [] else Returned(v, ev.act),
               if mine && ev.act.Iomap? then 1 else 0, mine && PostsClose(v, ev.act),
               BeforeClose(ca, cb, prefix, side));
  }

  /** The invariant and the observations in one. */
  lemma Observed(ca: Config, cb: Config, evs: seq<Event>, side: Side, v: System)
    requires Reaches(ca, cb, evs, side, v)
    ensures Inv(v) && Recorded(ca, cb, evs, v.a.h, side)
  {
    RunInv(ca, cb, evs, side, v);
    RunRecords(ca, cb, evs, side, v);
  }
}
