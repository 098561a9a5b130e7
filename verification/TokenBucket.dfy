/** TokenBucket: a rate limiter that keeps one virtual time, in 64-bit unsigned
    arithmetic. First one caller at a time, then any number of threads racing
    through the compare-and-exchange loop. */
module TokenBucket {
  import opened Common

  type u64 = x: int | 0 <= x < TWO64

  /** Unsigned 64-bit results of a sum, a difference and a product. */
  function Add64(x: u64, y: u64): u64 {
    if x + y < TWO64 then x + y else x + y - TWO64
  }

  function Sub64(x: u64, y: u64): u64 {
    if x >= y then x - y else x - y + TWO64
  }

  function Mul64(x: u64, y: u64): (r: u64)
    ensures 0 <= x * y < TWO64 ==> r == x * y
  {
    (x * y) % TWO64
  }

  datatype Rates = Rates(timePerToken: u64, timePerBurst: u64) {
    function Cost(tokens: u64): u64 {
      Mul64(tokens, timePerToken)
    }
  }

  /** Where the loop starts from: the stored time, or the earliest time that
      still leaves a burst. */
  function Base(r: Rates, now: u64, stored: u64): u64 {
    var minTime := Sub64(now, r.timePerBurst);
    if minTime > stored then minTime else stored
  }

  /** consume when no exchange fails: the new stored time and the verdict. */
  function Consume(r: Rates, stored: u64, tokens: u64, now: u64): (u64, bool) {
    var newTime := Add64(Base(r, now, stored), r.Cost(tokens));
    if newTime > now then (stored, false) else (newTime, true)
  }

  class Bucket {
    var time: u64
    const rates: Rates

    constructor (rate: u64, burstSize: u64)
      requires rate != 0
      ensures time == 0 && rates.timePerToken == 5_000_000_000 / rate
      ensures rates.timePerBurst == Mul64(burstSize, rates.timePerToken)
    {
      time := 0;
      rates := Rates(5_000_000_000 / rate, Mul64(burstSize, 5_000_000_000 / rate));
    }

    /** consume; `stored[i]` is the value the i-th exchange finds when it fails,
        and the exchange after the last of them succeeds. */
    method Consume(tokens: u64, now: u64, stored: seq<u64>) returns (ok: bool)
      modifies this
      ensures (time, ok) == Retried(rates, old(time), Base(rates, now, old(time)), rates.Cost(tokens), now, stored)
    {
      var timeNeeded := rates.Cost(tokens);
      var minTime := Sub64(now, rates.timePerBurst);
      var oldTime := time;
      var newTime: u64 := oldTime;
      if minTime > oldTime {
        newTime := minTime;
      }
      var i := 0;
      while true
        invariant i <= |stored| && timeNeeded == rates.Cost(tokens)
        invariant time == if i == 0 then old(time) else stored[i - 1]
        invariant oldTime == time
        invariant Retried(rates, old(time), Base(rates, now, old(time)), timeNeeded, now, stored)
               == Retried(rates, oldTime, newTime, timeNeeded, now, stored[i..])
        decreases |stored| - i
      {
        newTime := Add64(newTime, timeNeeded);
        if newTime > now {
          return false;
        }
        if i == |stored| {
          time := newTime;
          return true;
        }
        assert stored[i..][1..] == stored[i + 1..];
        time := stored[i];
        oldTime := stored[i];
        newTime := oldTime;
        i := i + 1;
      }
    }
  }

  /** The loop of consume from newTime = base on, where the failing exchanges
      find the values `stored`. A retry starts from the value found, and does not
      look at the burst again. */
  function Retried(r: Rates, held: u64, base: u64, cost: u64, now: u64, stored: seq<u64>): (u64, bool)
    decreases |stored|
  {
    var newTime := Add64(base, cost);
    if newTime > now then (held, false)
    else if stored == [] then (newTime, true)
    else Retried(r, stored[0], stored[0], cost, now, stored[1..])
  }

  lemma NoRetry(r: Rates, time: u64, tokens: u64, now: u64)
    ensures Retried(r, time, Base(r, now, time), r.Cost(tokens), now, []) == Consume(r, time, tokens, now)
  {
  }

  // ---- one caller at a time ----

  /** The clock is past the first burst and the sum does not overflow. */
  predicate InRange(r: Rates, time: u64, tokens: u64, now: u64) {
    && r.timePerBurst <= now && time <= now
    && 0 <= tokens * r.timePerToken && now + tokens * r.timePerToken < TWO64
  }

  /** A request succeeds exactly when it costs at most a burst and at most the
      time that has passed since the stored time. So one that costs more than a
      burst never does, and any other does after enough idle time. */
  lemma SucceedsWhen(r: Rates, time: u64, tokens: u64, now: u64)
    requires InRange(r, time, tokens, now)
    ensures Consume(r, time, tokens, now).1 <==> r.Cost(tokens) <= r.timePerBurst && time + r.Cost(tokens) <= now
  {
  }

  /** Before the clock has reached the length of a burst the subtraction wraps:
      whatever is stored by then, small requests are refused and only those
      costing between timePerBurst - now and timePerBurst get through. */
  lemma EarlyClock(r: Rates, time: u64, tokens: u64, now: u64)
    requires now < r.timePerBurst && time <= now && r.timePerBurst < TWO64 / 2
    requires 0 <= tokens * r.timePerToken < TWO64 / 2
    ensures Consume(r, time, tokens, now).1 <==> r.timePerBurst - now <= r.Cost(tokens) <= r.timePerBurst
  {
  }

  // ---- calls with failed exchanges ----

  /** One call; `stored` is what its failed exchanges find. */
  datatype Call = Call(tokens: u64, now: u64, stored: seq<u64>)

  function Serve(r: Rates, time: u64, c: Call): (u64, bool) {
    Retried(r, time, Base(r, c.now, time), r.Cost(c.tokens), c.now, c.stored)
  }

  /** What failed exchanges find is no less than before and not ahead of the clock. */
  predicate Rising(low: u64, stored: seq<u64>, now: u64)
    decreases |stored|
  {
    stored == [] || (low <= stored[0] <= now && Rising(stored[0], stored[1..], now))
  }

  /** A call with the clock past the first burst and `last`, and no overflow. */
  predicate Proper(r: Rates, time: u64, last: u64, c: Call) {
    && time <= last <= c.now && r.timePerBurst <= c.now && Rising(time, c.stored, c.now)
    && 0 <= c.tokens * r.timePerToken && c.now + c.tokens * r.timePerToken < TWO64
  }

  /** The call made its last attempt from within a burst of the clock. */
  predicate Fresh(r: Rates, c: Call) {
    c.stored == [] || c.stored[|c.stored| - 1] >= c.now - r.timePerBurst
  }

  /** Where the loop ends up: `cost` past what the last attempt started from. */
  lemma {:induction false} RetryBase(r: Rates, held: u64, base: u64, cost: u64, now: u64, stored: seq<u64>)
    requires base <= now && now + cost < TWO64 && Rising(held, stored, now) && held <= now
    ensures var (time', ok) := Retried(r, held, base, cost, now, stored);
      var found := if stored == [] then base else stored[|stored| - 1];
      && held <= (if ok && stored == [] then held else time') <= now
      && (ok ==> time' == found + cost <= now && base + cost <= now)
      && (ok && stored != [] ==> found >= held)
    decreases |stored|
  {
    if stored != [] {
      RetryBase(r, stored[0], stored[0], cost, now, stored[1..]);
    }
  }

  /** What one call does to the stored time. */
  lemma ServeMoves(r: Rates, time: u64, last: u64, c: Call)
    requires Proper(r, time, last, c)
    ensures var (time', ok) := Serve(r, time, c); var cost := r.Cost(c.tokens);
      && time <= time' <= c.now
      && (ok ==> time' >= time + cost && cost <= r.timePerBurst)
      && (ok && c.stored != [] ==> time' == c.stored[|c.stored| - 1] + cost)
      && (ok && Fresh(r, c) ==> time' >= c.now - r.timePerBurst + cost)
  {
    RetryBase(r, time, Base(r, c.now, time), r.Cost(c.tokens), c.now, c.stored);
  }

  /** The stored time after the calls, from `time` on. */
  function After(r: Rates, time: u64, calls: seq<Call>): u64
    decreases |calls|
  {
    if calls == [] then time else After(r, Serve(r, time, calls[0]).0, calls[1..])
  }

  /** The cost of the calls that succeed. */
  function Granted(r: Rates, time: u64, calls: seq<Call>): nat
    decreases |calls|
  {
    if calls == [] then 0
    else
      var (time', ok) := Serve(r, time, calls[0]);
      (if ok then r.Cost(calls[0].tokens) else 0) + Granted(r, time', calls[1..])
  }

  predicate Regular(r: Rates, time: u64, last: u64, calls: seq<Call>)
    decreases |calls|
  {
    calls == [] || (Proper(r, time, last, calls[0]) && Regular(r, Serve(r, time, calls[0]).0, calls[0].now, calls[1..]))
  }

  predicate AllFresh(r: Rates, calls: seq<Call>) {
    forall i :: 0 <= i < |calls| ==> Fresh(r, calls[i])
  }

  /** The clock value of the last call, `last` if there is none. */
  function End(last: u64, calls: seq<Call>): u64 {
    if calls == [] then last else calls[|calls| - 1].now
  }

  /** In terms of the stored time: calls never grant more than it moves, whatever
      their failed exchanges find. */
  lemma {:induction false} GrantedMoves(r: Rates, time: u64, last: u64, calls: seq<Call>)
    requires time <= last && Regular(r, time, last, calls)
    ensures time + Granted(r, time, calls) <= After(r, time, calls) <= End(last, calls)
    ensures last <= End(last, calls)
    decreases |calls|
  {
    if calls != [] {
      ServeMoves(r, time, last, calls[0]);
      GrantedMoves(r, Serve(r, time, calls[0]).0, calls[0].now, calls[1..]);
    }
  }

  /** The rate bound: whatever happened before, consecutive calls that are fresh are
      granted at most the time between the first and the last of them plus one
      burst. */
  lemma {:induction false} RateBound(r: Rates, time: u64, last: u64, calls: seq<Call>)
    requires time <= last && Regular(r, time, last, calls) && calls != [] && AllFresh(r, calls)
    ensures Granted(r, time, calls) <= calls[|calls| - 1].now - calls[0].now + r.timePerBurst
    decreases |calls|
  {
    var c := calls[0];
    ServeMoves(r, time, last, c);
    var (time', ok) := Serve(r, time, c);
    if ok {
      GrantedMoves(r, time', c.now, calls[1..]);
    } else if |calls| > 1 {
      RateBound(r, time', c.now, calls[1..]);
    }
  }

  lemma {:induction false} RegularSplit(r: Rates, time: u64, last: u64, calls: seq<Call>, i: nat)
    requires Regular(r, time, last, calls) && i <= |calls|
    ensures Regular(r, time, last, calls[..i])
    ensures Regular(r, After(r, time, calls[..i]), End(last, calls[..i]), calls[i..])
    decreases |calls|
  {
    hide Serve, Proper;
    if i == 0 {
      assert calls[0..] == calls && calls[..0] == [];
    } else {
      RegularSplit(r, Serve(r, time, calls[0]).0, calls[0].now, calls[1..], i - 1);
      assert calls[..i][1..] == calls[1..][..i - 1] && calls[1..][i - 1..] == calls[i..];
    }
  }

  /** So for every window i..j of every run of a new bucket in which every call of the
      window that had to retry is fresh. */
  lemma WindowBound(r: Rates, calls: seq<Call>, i: nat, j: nat)
    requires Regular(r, 0, 0, calls) && i < j <= |calls| && AllFresh(r, calls[i..j])
    ensures Granted(r, After(r, 0, calls[..i]), calls[i..j]) <= calls[j - 1].now - calls[i].now + r.timePerBurst
  {
    hide After, Granted, Regular, Fresh;
    RegularSplit(r, 0, 0, calls, i);
    GrantedMoves(r, 0, 0, calls[..i]);
    var time, last := After(r, 0, calls[..i]), End(0, calls[..i]);
    RegularSplit(r, time, last, calls[i..], j - i);
    assert calls[i..][..j - i] == calls[i..j];
    RateBound(r, time, last, calls[i..j]);
  }

  // ---- when the bound holds ----

  /** Whatever calls follow, the bound holds for them together with a first call
      that cost `cost` at clock value `now` and left `time` stored. */
  ghost predicate BoundKept(r: Rates, time: u64, now: u64, cost: nat) {
    forall calls: seq<Call> :: Regular(r, time, now, calls) && AllFresh(r, calls) ==>
      cost + Granted(r, time, calls) <= End(now, calls) - now + r.timePerBurst
  }

  lemma PositiveFactors(x: nat, y: nat)
    requires x * y >= 1
    ensures x >= 1 && y >= 1
  {
  }

  lemma Multiples(g: nat, burst: nat, tokens: nat) returns (q: nat)
    requires g >= 1 && 1 <= tokens * g <= burst
    ensures q > tokens && burst < q * g <= burst + g && g <= tokens * g
    ensures (q - tokens) * g == q * g - tokens * g
  {
    PositiveFactors(tokens, g);
    q := burst / g + 1;
    assert burst == (burst / g) * g + burst % g;
    assert q * g == (burst / g) * g + g;
    assert tokens * g == (tokens - 1) * g + g;
    assert (tokens - 1) * g >= 0;
  }

  /** After a retried call that is not fresh, one further call, less than one token's
      time later, makes the two cost more than the bound allows. */
  lemma RetryBreaksBound(r: Rates, time: u64, last: u64, c: Call) returns (d: Call)
    requires Proper(r, time, last, c) && Serve(r, time, c).1 && r.Cost(c.tokens) >= 1 && !Fresh(r, c)
    requires c.now + 2 * (r.timePerBurst + r.timePerToken) < TWO64
    ensures var time' := Serve(r, time, c).0;
      && Regular(r, time', c.now, [d]) && AllFresh(r, [d])
      && r.Cost(c.tokens) + Granted(r, time', [d]) > d.now - c.now + r.timePerBurst
  {
    hide Retried;
    ServeMoves(r, time, last, c);
    var time', g, burst, cost := Serve(r, time, c).0, r.timePerToken, r.timePerBurst, r.Cost(c.tokens);
    assert cost == c.tokens * g;
    PositiveFactors(c.tokens, g);
    var q := Multiples(g, burst, c.tokens);
    OneMoreCall(r, time', c.now, q - c.tokens, q * g - cost, q * g - burst - 1);
    d := Call(q - c.tokens, c.now + (q * g - burst - 1), []);
  }

  lemma OneMoreCall(r: Rates, time: u64, now: u64, tokens: nat, cost: nat, later: nat)
    requires tokens * r.timePerToken == cost && 1 <= cost <= r.timePerBurst <= now && time <= now
    requires time + cost <= now + later && now + later + cost < TWO64 && r.timePerToken >= 1
    ensures tokens < TWO64
    ensures var d := Call(tokens, now + later, []);
      Regular(r, time, now, [d]) && Granted(r, time, [d]) == cost
  {
    assert tokens * r.timePerToken == tokens * (r.timePerToken - 1) + tokens;
    var d := Call(tokens, now + later, []);
    assert r.Cost(tokens) == cost;
    assert [d][1..] == [];
    assert Regular(r, Serve(r, time, d).0, d.now, [d][1..]);
    assert Granted(r, Serve(r, time, d).0, [d][1..]) == 0;
  }

  /** So the rate bound survives a call with failed exchanges if and only if the value
      that the last of them found was within a burst of the clock. */
  lemma RetryExact(r: Rates, time: u64, last: u64, c: Call)
    requires Proper(r, time, last, c) && Serve(r, time, c).1 && r.Cost(c.tokens) >= 1
    requires c.now + 2 * (r.timePerBurst + r.timePerToken) < TWO64
    ensures BoundKept(r, Serve(r, time, c).0, c.now, r.Cost(c.tokens)) <==> Fresh(r, c)
  {
    ServeMoves(r, time, last, c);
    var time', cost := Serve(r, time, c).0, r.Cost(c.tokens);
    if Fresh(r, c) {
      forall calls: seq<Call> | Regular(r, time', c.now, calls) && AllFresh(r, calls)
        ensures cost + Granted(r, time', calls) <= End(c.now, calls) - c.now + r.timePerBurst
      {
        GrantedMoves(r, time', c.now, calls);
      }
    } else {
      var d := RetryBreaksBound(r, time, last, c);
      assert Regular(r, time', c.now, [d]);
    }
  }

  // ---- racing threads ----

  /** A thread outside consume; past its clock read; or in the loop. */
  datatype Caller =
    | Out
    | Timed(now: u64, cost: u64)
    | Looping(now: u64, cost: u64, oldTime: u64, newTime: u64)

  /** The stored time, the latest clock value read by anyone, the threads, and
      the cost of all requests granted so far, which no step reads. */
  datatype Race = Race(time: u64, clock: u64, callers: seq<Caller>, granted: nat)

  /** Clock  read the clock and compute the cost
      Load   load the stored time and clamp it to the burst
      Try    one round of the loop; its exchange may fail spuriously */
  datatype Act = Clock(now: u64, tokens: u64) | Load | Try(spurious: bool)

  /** A step that is possible, with a steady clock past the first burst and no
      overflow of the sum. */
  predicate Enabled(r: Rates, s: Race, t: nat, act: Act) {
    t < |s.callers| &&
    match act
    case Clock(now, tokens) => s.callers[t].Out? && s.clock <= now && r.timePerBurst <= now
    case Load => s.callers[t].Timed?
    case Try(_) => s.callers[t].Looping? && s.callers[t].newTime + s.callers[t].cost < TWO64
  }

  function Step(r: Rates, s: Race, t: nat, act: Act): Race
    requires Enabled(r, s, t, act)
  {
    match act
    case Clock(now, tokens) => s.(clock := now, callers := s.callers[t := Timed(now, r.Cost(tokens))])
    case Load =>
      var Timed(now, cost) := s.callers[t];
      s.(callers := s.callers[t := Looping(now, cost, s.time, Base(r, now, s.time))])
    case Try(spurious) =>
      var Looping(now, cost, oldTime, newTime) := s.callers[t];
      var newTime' := Add64(newTime, cost);
      if newTime' > now then s.(callers := s.callers[t := Out])
      else if s.time == oldTime && !spurious then
        Race(newTime', s.clock, s.callers[t := Out], s.granted + cost)
      else s.(callers := s.callers[t := Looping(now, cost, s.time, s.time)])
  }

  predicate CallerOk(r: Rates, clock: u64, c: Caller) {
    match c
    case Out => true
    case Timed(now, _) => r.timePerBurst <= now <= clock
    case Looping(now, _, oldTime, newTime) => now <= clock && oldTime <= newTime
  }

  predicate RaceInv(r: Rates, s: Race) {
    && s.granted <= s.time <= s.clock
    && forall t :: 0 <= t < |s.callers| ==> CallerOk(r, s.clock, s.callers[t])
  }

  /** No step moves the stored time back, a granted request moves it by at least
      its cost, and it never passes the latest clock value. */
  lemma RaceStep(r: Rates, s: Race, t: nat, act: Act)
    requires RaceInv(r, s) && Enabled(r, s, t, act)
    ensures var s' := Step(r, s, t, act);
      && RaceInv(r, s') && s.time <= s'.time <= s'.clock
      && s'.time - s.time >= s'.granted - s.granted >= 0
  {
    var s' := Step(r, s, t, act);
    assert CallerOk(r, s.clock, s.callers[t]);
    forall u | 0 <= u < |s'.callers|
      ensures CallerOk(r, s'.clock, s'.callers[u])
    {
      assert CallerOk(r, s.clock, s.callers[u]);
    }
  }

  datatype Event = Event(thread: nat, act: Act)

  predicate IsRun(r: Rates, s: Race, evs: seq<Event>)
    decreases |evs|
  {
    evs == [] || (Enabled(r, s, evs[0].thread, evs[0].act) && IsRun(r, Step(r, s, evs[0].thread, evs[0].act), evs[1..]))
  }

  function Final(r: Rates, s: Race, evs: seq<Event>): Race
    requires IsRun(r, s, evs)
    decreases |evs|
  {
    if evs == [] then s else Final(r, Step(r, s, evs[0].thread, evs[0].act), evs[1..])
  }

  /** A new bucket used by n threads. */
  function Start(n: nat): Race {
    Race(0, 0, seq(n, i => Out), 0)
  }

  lemma {:induction false} RunBound(r: Rates, s: Race, evs: seq<Event>)
    requires RaceInv(r, s) && IsRun(r, s, evs)
    ensures RaceInv(r, Final(r, s, evs)) && s.time <= Final(r, s, evs).time
    decreases |evs|
  {
    if evs != [] {
      RaceStep(r, s, evs[0].thread, evs[0].act);
      RunBound(r, Step(r, s, evs[0].thread, evs[0].act), evs[1..]);
    }
  }

  /** Under any interleaving, with exchanges failing for any reason, the cost of
      everything ever granted is at most the latest clock value read. */
  lemma TotalBound(r: Rates, n: nat, evs: seq<Event>)
    requires IsRun(r, Start(n), evs)
    ensures var s := Final(r, Start(n), evs); s.granted <= s.time <= s.clock
  {
    RunBound(r, Start(n), evs);
  }

  // ---- the rate bound of racing threads ----

  /** The step is an exchange that succeeds. */
  predicate Grants(r: Rates, s: Race, t: nat, act: Act)
    requires Enabled(r, s, t, act)
  {
    act.Try? && !act.spurious && s.time == s.callers[t].oldTime
    && s.callers[t].newTime + s.callers[t].cost <= s.callers[t].now
  }

  /** Every exchange that succeeds started from within a burst of its clock value: a
      thread that never failed always does, one that retried if what it found does. */
  predicate FreshGrants(r: Rates, s: Race, evs: seq<Event>)
    requires IsRun(r, s, evs)
    decreases |evs|
  {
    evs == [] ||
    var t, act := evs[0].thread, evs[0].act;
    && (Grants(r, s, t, act) ==> s.callers[t].newTime >= s.callers[t].now - r.timePerBurst)
    && FreshGrants(r, Step(r, s, t, act), evs[1..])
  }

  /** The clock has reached `from`, and no thread in consume read it earlier. */
  predicate Since(s: Race, from: u64) {
    from <= s.clock && forall t :: 0 <= t < |s.callers| && !s.callers[t].Out? ==> s.callers[t].now >= from
  }

  lemma StepSince(r: Rates, s: Race, t: nat, act: Act, from: u64)
    requires Since(s, from) && Enabled(r, s, t, act)
    ensures Since(Step(r, s, t, act), from)
  {
  }

  /** Whatever the threads grant, the stored time moves by at least as much. */
  lemma {:induction false} GrantedWithin(r: Rates, s: Race, evs: seq<Event>)
    requires RaceInv(r, s) && IsRun(r, s, evs)
    ensures var f := Final(r, s, evs);
      RaceInv(r, f) && 0 <= f.granted - s.granted <= f.time - s.time && f.time <= f.clock
    decreases |evs|
  {
    if evs != [] {
      RaceStep(r, s, evs[0].thread, evs[0].act);
      GrantedWithin(r, Step(r, s, evs[0].thread, evs[0].act), evs[1..]);
    }
  }

  /** In every window of every run, the requests of all threads together that are
      granted cost at most the time since `from` plus one burst, as long as every
      exchange that succeeds in it is fresh. */
  lemma {:induction false} RaceWindow(r: Rates, s: Race, evs: seq<Event>, from: u64)
    requires RaceInv(r, s) && IsRun(r, s, evs) && FreshGrants(r, s, evs) && Since(s, from)
    ensures var f := Final(r, s, evs); f.granted - s.granted <= f.clock - from + r.timePerBurst
    decreases |evs|
  {
    if evs == [] {
    } else {
      var t, act := evs[0].thread, evs[0].act;
      var s1 := Step(r, s, t, act);
      assert CallerOk(r, s.clock, s.callers[t]);
      RaceStep(r, s, t, act);
      StepSince(r, s, t, act, from);
      if Grants(r, s, t, act) {
        GrantedWithin(r, s1, evs[1..]);
      } else {
        RaceWindow(r, s1, evs[1..], from);
      }
    }
  }

  lemma {:induction false} RunSplit(r: Rates, s: Race, evs: seq<Event>, more: seq<Event>)
    requires IsRun(r, s, evs + more)
    ensures IsRun(r, s, evs) && IsRun(r, Final(r, s, evs), more)
    decreases |evs|
  {
    if evs == [] {
      assert evs + more == more;
    } else {
      assert (evs + more)[1..] == evs[1..] + more;
      RunSplit(r, Step(r, s, evs[0].thread, evs[0].act), evs[1..], more);
    }
  }

  /** So from every point of every run of a new bucket used by n threads at which no
      call is under way: elapsed time plus one burst. */
  lemma RaceRate(r: Rates, n: nat, evs: seq<Event>, more: seq<Event>)
    requires IsRun(r, Start(n), evs + more)
    ensures IsRun(r, Start(n), evs) && IsRun(r, Final(r, Start(n), evs), more)
    ensures var s := Final(r, Start(n), evs); var f := Final(r, s, more);
      FreshGrants(r, s, more) && (forall t :: 0 <= t < |s.callers| ==> s.callers[t].Out?) ==>
        f.granted - s.granted <= f.clock - s.clock + r.timePerBurst
  {
    RunSplit(r, Start(n), evs, more);
    RunBound(r, Start(n), evs);
    var s := Final(r, Start(n), evs);
    if FreshGrants(r, s, more) && (forall t :: 0 <= t < |s.callers| ==> s.callers[t].Out?) {
      RaceWindow(r, s, more, s.clock);
    }
  }

  // ---- when racing threads break it ----

  /** Thread t, alone in consume, is about to be granted its request from a value that
      a failed exchange of it has found, or from its first one. */
  predicate AboutToGrant(r: Rates, s: Race, t: nat) {
    && t < |s.callers| && s.callers[t].Looping? && (forall u :: 0 <= u < |s.callers| && u != t ==> s.callers[u].Out?)
    && Enabled(r, s, t, Try(false)) && Grants(r, s, t, Try(false))
  }

  /** Whatever the threads do next, the bound from t's clock value on holds for its
      grant and theirs, as long as theirs are fresh. */
  ghost predicate RaceKept(r: Rates, s: Race, t: nat)
    requires AboutToGrant(r, s, t)
  {
    var s1 := Step(r, s, t, Try(false));
    forall more: seq<Event> :: IsRun(r, s1, more) && FreshGrants(r, s1, more) ==>
      Final(r, s1, more).granted - s.granted <= Final(r, s1, more).clock - s.callers[t].now + r.timePerBurst
  }

  /** A whole call of thread t for a burst, at clock value `now`. */
  function BurstCall(t: nat, now: u64, tokens: u64): seq<Event> {
    [Event(t, Clock(now, tokens)), Event(t, Load), Event(t, Try(false))]
  }

  /** One event before a run. */
  lemma StepFirst(r: Rates, s: Race, ev: Event, evs: seq<Event>)
    requires Enabled(r, s, ev.thread, ev.act)
    requires Grants(r, s, ev.thread, ev.act) ==>
      s.callers[ev.thread].newTime >= s.callers[ev.thread].now - r.timePerBurst
    requires var s1 := Step(r, s, ev.thread, ev.act); IsRun(r, s1, evs) && FreshGrants(r, s1, evs)
    ensures IsRun(r, s, [ev] + evs) && FreshGrants(r, s, [ev] + evs)
    ensures Final(r, s, [ev] + evs) == Final(r, Step(r, s, ev.thread, ev.act), evs)
  {
    hide Enabled, Step, Grants;
    assert ([ev] + evs)[1..] == evs;
  }

  lemma NothingRun(r: Rates, s: Race)
    ensures IsRun(r, s, []) && FreshGrants(r, s, []) && Final(r, s, []) == s
  {
  }

  lemma BurstGranted(r: Rates, s: Race, t: nat, now: u64, tokens: u64)
    requires t < |s.callers| && s.callers[t].Out? && s.clock <= now && r.timePerBurst <= now
    requires r.Cost(tokens) == r.timePerBurst && s.time + r.timePerBurst <= now && now + r.timePerBurst < TWO64
    ensures var evs := BurstCall(t, now, tokens);
      && IsRun(r, s, evs) && FreshGrants(r, s, evs)
      && Final(r, s, evs).granted == s.granted + r.timePerBurst && Final(r, s, evs).clock == now
  {
    hide Mul64, IsRun, FreshGrants, Final;
    var s1 := Step(r, s, t, Clock(now, tokens));
    var s2 := Step(r, s1, t, Load);
    assert s2.callers[t] == Looping(now, r.timePerBurst, s.time, now - r.timePerBurst);
    var s3 := Step(r, s2, t, Try(false));
    NothingRun(r, s3);
    StepFirst(r, s2, Event(t, Try(false)), []);
    assert [Event(t, Try(false))] + [] == [Event(t, Try(false))];
    StepFirst(r, s1, Event(t, Load), [Event(t, Try(false))]);
    StepFirst(r, s, Event(t, Clock(now, tokens)), [Event(t, Load)] + [Event(t, Try(false))]);
    assert BurstCall(t, now, tokens) == [Event(t, Clock(now, tokens))] + ([Event(t, Load)] + [Event(t, Try(false))]);
  }

  /** A request granted from a value more than a burst before its clock value breaks
      the bound, unless the clock that others have read is its cost ahead. */
  lemma StaleBreaks(r: Rates, s: Race, t: nat, burst: u64)
    requires RaceInv(r, s) && AboutToGrant(r, s, t) && r.Cost(burst) == r.timePerBurst
    requires var c := s.callers[t];
      && c.newTime < c.now - r.timePerBurst && s.clock < c.now + c.cost && c.now + c.cost + r.timePerBurst < TWO64
    ensures !RaceKept(r, s, t)
  {
    hide Mul64;
    assert CallerOk(r, s.clock, s.callers[t]);
    var Looping(now, cost, oldTime, newTime) := s.callers[t];
    var s1 := Step(r, s, t, Try(false));
    var more := BurstCall(t, now + cost - 1, burst);
    BurstGranted(r, s1, t, now + cost - 1, burst);
    assert IsRun(r, s1, more) && FreshGrants(r, s1, more);
    assert Final(r, s1, more).granted - s.granted > Final(r, s1, more).clock - now + r.timePerBurst;
  }

  /** A thread alone in consume keeps the bound if and only if it is granted from a
      value within a burst of its clock value, or others have read a clock that is
      ahead of it by at least the cost. */
  lemma RaceExact(r: Rates, s: Race, t: nat, burst: u64)
    requires RaceInv(r, s) && AboutToGrant(r, s, t) && r.Cost(burst) == r.timePerBurst
    requires s.callers[t].now + s.callers[t].cost + r.timePerBurst < TWO64
    ensures var c := s.callers[t];
      RaceKept(r, s, t) <==> c.newTime >= c.now - r.timePerBurst || s.clock >= c.now + c.cost
  {
    hide Mul64;
    var c := s.callers[t];
    assert CallerOk(r, s.clock, c);
    if c.newTime >= c.now - r.timePerBurst || s.clock >= c.now + c.cost {
      RaceStep(r, s, t, Try(false));
      var s1 := Step(r, s, t, Try(false));
      forall more: seq<Event> | IsRun(r, s1, more) && FreshGrants(r, s1, more)
        ensures Final(r, s1, more).granted - s.granted <= Final(r, s1, more).clock - c.now + r.timePerBurst
      {
        RaceWindow(r, s1, more, s1.clock);
        GrantedWithin(r, s1, more);
      }
    } else {
      StaleBreaks(r, s, t, burst);
    }
  }

  /** Two threads at a bucket with a burst of 10: thread 1 reads the clock early and
      is granted 1 between thread 0's load at clock 100 and its exchange, which
      fails and finds 1. */
  const STALE_RUN := [Event(1, Clock(10, 1)), Event(1, Load), Event(0, Clock(100, 10)), Event(0, Load),
                      Event(1, Try(false)), Event(0, Try(false))]

  lemma {:induction false} PrefixRun(r: Rates, s: Race, evs: seq<Event>, ev: Event)
    requires IsRun(r, s, evs) && Enabled(r, Final(r, s, evs), ev.thread, ev.act)
    ensures IsRun(r, s, evs + [ev])
    ensures Final(r, s, evs + [ev]) == Step(r, Final(r, s, evs), ev.thread, ev.act)
    decreases |evs|
  {
    if evs == [] {
      assert ([] + [ev]) == [ev] && [ev][1..] == [];
      assert IsRun(r, Step(r, s, ev.thread, ev.act), []);
    } else {
      assert (evs + [ev])[1..] == evs[1..] + [ev];
      PrefixRun(r, Step(r, s, evs[0].thread, evs[0].act), evs[1..], ev);
    }
  }

  lemma StaleStep(r: Rates, k: nat, s: Race, s': Race)
    requires k < |STALE_RUN| && IsRun(r, Start(2), STALE_RUN[..k]) && Final(r, Start(2), STALE_RUN[..k]) == s
    requires var ev := STALE_RUN[k]; Enabled(r, s, ev.thread, ev.act) && Step(r, s, ev.thread, ev.act) == s'
    ensures IsRun(r, Start(2), STALE_RUN[..k + 1]) && Final(r, Start(2), STALE_RUN[..k + 1]) == s'
  {
    hide IsRun, Final, Step, Enabled;
    assert STALE_RUN[..k + 1] == STALE_RUN[..k] + [STALE_RUN[k]];
    PrefixRun(r, Start(2), STALE_RUN[..k], STALE_RUN[k]);
  }

  /** A run that gets there: thread 0 then is granted its 10, and can be granted
      another 10 at clock 109. */
  lemma StaleRun()
    ensures var r := Rates(1, 10);
      && IsRun(r, Start(2), STALE_RUN)
      && var s := Final(r, Start(2), STALE_RUN);
      && RaceInv(r, s) && AboutToGrant(r, s, 0) && s.clock == 100 && s.callers[0].newTime == 1 && !RaceKept(r, s, 0)
  {
    var r := Rates(1, 10);
    var s0 := Start(2);
    assert r.Cost(1) == 1 && r.Cost(10) == 10;
    var s1 := Race(0, 10, [Out, Timed(10, 1)], 0);
    var s2 := Race(0, 10, [Out, Looping(10, 1, 0, 0)], 0);
    var s3 := Race(0, 100, [Timed(100, 10), Looping(10, 1, 0, 0)], 0);
    var s4 := Race(0, 100, [Looping(100, 10, 0, 90), Looping(10, 1, 0, 0)], 0);
    var s5 := Race(1, 100, [Looping(100, 10, 0, 90), Out], 1);
    var s6 := Race(1, 100, [Looping(100, 10, 1, 1), Out], 1);
    StaleStep(r, 0, s0, s1);
    StaleStep(r, 1, s1, s2);
    StaleStep(r, 2, s2, s3);
    StaleStep(r, 3, s3, s4);
    StaleStep(r, 4, s4, s5);
    StaleStep(r, 5, s5, s6);
    assert STALE_RUN[..6] == STALE_RUN;
    RunBound(r, s0, STALE_RUN);
    StaleBreaks(r, s6, 0, 10);
  }
}
