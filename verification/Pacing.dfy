/** Waiting at a token bucket: a loop that calls consume again and again until it
    succeeds, for one amount after the other, with the clock read at every call. */
module Pacing {
  import opened Common
  import opened TokenBucket

  /** The loop for one amount, reading the clock from the front of `clock`: the
      stored time and the readings left when it ends, if it ends. */
  function Waited(r: Rates, time: u64, tokens: u64, clock: seq<u64>): Option<(u64, seq<u64>)>
    decreases |clock|
  {
    if clock == [] then None
    else
      var (time', ok) := Consume(r, time, tokens, clock[0]);
      if ok then Some((time', clock[1..])) else Waited(r, time', tokens, clock[1..])
  }

  /** The loop for every amount in turn. */
  function Paced(r: Rates, time: u64, amounts: seq<u64>, clock: seq<u64>): Option<(u64, seq<u64>)>
    decreases |amounts|
  {
    if amounts == [] then Some((time, clock))
    else
      match Waited(r, time, amounts[0], clock)
      case None => None
      case Some((time', clock')) => Paced(r, time', amounts[1..], clock')
  }

  lemma {:induction false} PacedAppend(r: Rates, time: u64, p: seq<u64>, q: seq<u64>, clock: seq<u64>)
    ensures Paced(r, time, p + q, clock) ==
      match Paced(r, time, p, clock) case None => None case Some((time', clock')) => Paced(r, time', q, clock')
    decreases |p|
  {
    hide Waited;
    if p == [] {
      assert p + q == q;
    } else {
      assert (p + q)[1..] == p[1..] + q;
      var w := Waited(r, time, p[0], clock);
      if w.Some? {
        PacedAppend(r, w.value.0, p[1..], q, w.value.1);
      }
    }
  }

  /** A clock that does not go back behind `last`. */
  predicate Steady(last: u64, clock: seq<u64>)
    decreases |clock|
  {
    clock == [] || (last <= clock[0] && Steady(clock[0], clock[1..]))
  }

  /** No sum of a reading and a cost overflows. */
  predicate NoOverflow(r: Rates, amounts: seq<u64>, clock: seq<u64>) {
    forall i, j :: 0 <= i < |amounts| && 0 <= j < |clock| ==> clock[j] + r.Cost(amounts[i]) < TWO64
  }

  /** No amount costs more than a burst. */
  predicate Affordable(r: Rates, amounts: seq<u64>) {
    forall i :: 0 <= i < |amounts| ==> r.Cost(amounts[i]) <= r.timePerBurst
  }

  // ---- an amount above a burst ----

  /** It is refused at every clock value, early or late. */
  lemma Refused(r: Rates, time: u64, tokens: u64, now: u64)
    requires r.Cost(tokens) > r.timePerBurst && time <= now && now + r.Cost(tokens) < TWO64
    ensures Consume(r, time, tokens, now) == (time, false)
  {
  }

  lemma {:induction false} NeverWaited(r: Rates, time: u64, tokens: u64, last: u64, clock: seq<u64>)
    requires r.Cost(tokens) > r.timePerBurst && time <= last && Steady(last, clock) && NoOverflow(r, [tokens], clock)
    ensures Waited(r, time, tokens, clock) == None
    decreases |clock|
  {
    if clock != [] {
      assert clock[0] + r.Cost([tokens][0]) < TWO64;
      Refused(r, time, tokens, clock[0]);
      NeverWaited(r, time, tokens, clock[0], clock[1..]);
    }
  }

  /** Where the loop for one amount ends. */
  lemma {:induction false} WaitedEnds(r: Rates, time: u64, tokens: u64, last: u64, clock: seq<u64>)
    requires time <= last && Steady(last, clock)
    ensures match Waited(r, time, tokens, clock)
      case None => true
      case Some((time', clock')) =>
        && |clock'| < |clock| && clock' == clock[|clock| - |clock'|..]
        && time' <= clock[|clock| - |clock'| - 1] && Steady(clock[|clock| - |clock'| - 1], clock')
    decreases |clock|
  {
    if clock != [] {
      var (time', ok) := Consume(r, time, tokens, clock[0]);
      if !ok {
        WaitedEnds(r, time', tokens, clock[0], clock[1..]);
      }
    }
  }

  /** With one amount above a burst, no clock ever gets the loop to its end. */
  lemma {:induction false} NeverPaced(r: Rates, time: u64, amounts: seq<u64>, last: u64, clock: seq<u64>)
    requires !Affordable(r, amounts) && time <= last && Steady(last, clock) && NoOverflow(r, amounts, clock)
    ensures Paced(r, time, amounts, clock) == None
    decreases |amounts|
  {
    hide Consume, Steady, Waited, Mul64;
    WaitedEnds(r, time, amounts[0], last, clock);
    if r.Cost(amounts[0]) > r.timePerBurst {
      NeverWaited(r, time, amounts[0], last, clock);
    } else if Waited(r, time, amounts[0], clock).Some? {
      var (time', clock') := Waited(r, time, amounts[0], clock).value;
      assert !Affordable(r, amounts[1..]) by {
        var i :| 0 <= i < |amounts| && r.Cost(amounts[i]) > r.timePerBurst;
        assert amounts[1..][i - 1] == amounts[i];
      }
      NeverPaced(r, time', amounts[1..], clock[|clock| - |clock'| - 1], clock');
    }
  }

  // ---- amounts within a burst ----

  /** How often the clock, from `start` on, moves on by at least `gap`. */
  function Ticks(clock: seq<u64>, start: u64, gap: u64): nat
    decreases |clock|
  {
    if clock == [] then 0
    else if clock[0] >= start + gap then 1 + Ticks(clock[1..], clock[0], gap)
    else Ticks(clock[1..], start, gap)
  }

  lemma {:induction false} TicksFrom(clock: seq<u64>, start: u64, start': u64, gap: u64)
    requires start <= start'
    ensures Ticks(clock, start, gap) >= Ticks(clock, start', gap)
    ensures start' <= start + gap ==> Ticks(clock, start', gap) + 1 >= Ticks(clock, start, gap)
    decreases |clock|
  {
    if clock != [] {
      var x, rest := clock[0], clock[1..];
      TicksFrom(rest, start, start', gap);
      if x <= start' {
        TicksFrom(rest, x, start', gap);
      } else {
        TicksFrom(rest, start', x, gap);
      }
      if start <= x {
        TicksFrom(rest, start, x, gap);
      }
    }
  }

  /** One amount takes at most one tick. */
  lemma {:induction false} WaitedInTime(r: Rates, time: u64, tokens: u64, start: u64, clock: seq<u64>)
    requires r.Cost(tokens) <= r.timePerBurst && NoOverflow(r, [tokens], clock)
    requires time <= start && r.timePerBurst <= start && Steady(start, clock)
    requires Ticks(clock, start, r.timePerBurst) >= 1
    ensures Waited(r, time, tokens, clock).Some?
    ensures var (time', clock') := Waited(r, time, tokens, clock).value;
      && |clock'| < |clock| && clock' == clock[|clock| - |clock'|..]
      && var now := clock[|clock| - |clock'| - 1];
      && time' <= now && start <= now && Steady(now, clock')
      && Ticks(clock', now, r.timePerBurst) + 1 >= Ticks(clock, start, r.timePerBurst)
    decreases |clock|
  {
    hide Mul64;
    var now, rest, burst := clock[0], clock[1..], r.timePerBurst;
    assert now + r.Cost([tokens][0]) < TWO64;
    var (time', ok) := Consume(r, time, tokens, now);
    if ok {
      if now < start + burst {
        TicksFrom(rest, start, now, burst);
      }
    } else {
      assert now < start + burst;
      SteadyFrom(start, now, rest);
      WaitedInTime(r, time', tokens, start, rest);
    }
  }

  lemma SteadyFrom(last: u64, last': u64, clock: seq<u64>)
    requires last <= last' && Steady(last', clock)
    ensures Steady(last, clock)
  {
  }

  /** With every amount within a burst, every clock that moves on by a burst as often
      as there are amounts gets the loop to its end. */
  lemma {:induction false} PacedInTime(r: Rates, time: u64, amounts: seq<u64>, start: u64, clock: seq<u64>)
    requires Affordable(r, amounts) && NoOverflow(r, amounts, clock)
    requires time <= start && r.timePerBurst <= start && Steady(start, clock)
    requires Ticks(clock, start, r.timePerBurst) >= |amounts|
    ensures Paced(r, time, amounts, clock).Some?
    decreases |amounts|
  {
    hide Consume, Steady, Waited, Mul64, Ticks;
    if amounts != [] {
      WaitedInTime(r, time, amounts[0], start, clock);
      var (time', clock') := Waited(r, time, amounts[0], clock).value;
      PacedInTime(r, time', amounts[1..], clock[|clock| - |clock'| - 1], clock');
    }
  }

  // ---- together ----

  /** A clock on which n amounts can be served: steady, past the first burst, without
      overflow, and moving on by a burst n times. */
  ghost predicate Enough(r: Rates, amounts: seq<u64>, start: u64, clock: seq<u64>) {
    Steady(start, clock) && NoOverflow(r, amounts, clock) && Ticks(clock, start, r.timePerBurst) >= |amounts|
  }

  /** The length of n bursts. */
  function Bursts(r: Rates, n: nat): nat {
    if n == 0 then 0 else r.timePerBurst + Bursts(r, n - 1)
  }

  /** Readings that are a burst apart. */
  function Apart(r: Rates, start: u64, n: nat): (clock: seq<u64>)
    requires start + Bursts(r, n) < TWO64
    ensures |clock| == n && forall i :: 0 <= i < n ==> clock[i] <= start + Bursts(r, n)
    decreases n
  {
    if n == 0 then [] else [start + r.timePerBurst] + Apart(r, start + r.timePerBurst, n - 1)
  }

  lemma {:induction false} ApartTicks(r: Rates, start: u64, n: nat)
    requires start + Bursts(r, n) < TWO64
    ensures var clock := Apart(r, start, n); Steady(start, clock) && Ticks(clock, start, r.timePerBurst) == n
    decreases n
  {
    if n > 0 {
      ApartTicks(r, start + r.timePerBurst, n - 1);
      assert Apart(r, start, n)[1..] == Apart(r, start + r.timePerBurst, n - 1);
    }
  }

  /** The loop ends on every clock that moves on far enough if and only if no amount
      costs more than a burst; otherwise it ends on none. */
  lemma PacedExact(r: Rates, time: u64, amounts: seq<u64>, start: u64)
    requires time <= start && r.timePerBurst <= start
    requires start + Bursts(r, |amounts|) < TWO64 / 2
    requires forall i :: 0 <= i < |amounts| ==> r.Cost(amounts[i]) < TWO64 / 2
    ensures (forall clock :: Enough(r, amounts, start, clock) ==> Paced(r, time, amounts, clock).Some?) <==>
      Affordable(r, amounts)
    ensures !Affordable(r, amounts) ==> forall clock ::
      Steady(start, clock) && NoOverflow(r, amounts, clock) ==> Paced(r, time, amounts, clock).None?
  {
    hide Mul64, Steady, Ticks, Paced, Affordable;
    if Affordable(r, amounts) {
      forall clock | Enough(r, amounts, start, clock)
        ensures Paced(r, time, amounts, clock).Some?
      {
        PacedInTime(r, time, amounts, start, clock);
      }
    } else {
      forall clock | Steady(start, clock) && NoOverflow(r, amounts, clock)
        ensures Paced(r, time, amounts, clock).None?
      {
        NeverPaced(r, time, amounts, start, clock);
      }
      ApartTicks(r, start, |amounts|);
      assert Enough(r, amounts, start, Apart(r, start, |amounts|));
    }
  }
}
