/** fastlock: an atomic counter in front of a semaphore, for any number of
    threads. Each atomic operation is one step. */
module Fastlock {

  /** Where a thread is: outside; counted in and at sem_wait; inside; counted
      out and at sem_post. */
  datatype Phase = Idle | Waiting | Holding | Posting

  datatype Lock = Lock(cnt: int, sem: nat, threads: seq<Phase>)

  datatype Act = Acquire | Wait | Release | Post

  /** fastlock_init */
  function Init(n: nat): Lock {
    Lock(0, 0, seq(n, i => Idle))
  }

  predicate Enabled(l: Lock, t: nat, act: Act) {
    t < |l.threads| &&
    match act
    case Acquire => l.threads[t].Idle?
    case Wait => l.threads[t].Waiting? && l.sem > 0
    case Release => l.threads[t].Holding?
    case Post => l.threads[t].Posting?
  }

  /** The atomic add and test of fastlock_acquire, the wait behind it, the atomic
      subtract and test of fastlock_release, the post behind it. */
  function Step(l: Lock, t: nat, act: Act): Lock
    requires Enabled(l, t, act)
  {
    match act
    case Acquire => Lock(l.cnt + 1, l.sem, l.threads[t := if l.cnt + 1 > 1 then Waiting else Holding])
    case Wait => Lock(l.cnt, l.sem - 1, l.threads[t := Holding])
    case Release => Lock(l.cnt - 1, l.sem, l.threads[t := if l.cnt - 1 > 0 then Posting else Idle])
    case Post => Lock(l.cnt, l.sem + 1, l.threads[t := Idle])
  }

  datatype Event = Event(thread: nat, act: Act)

  predicate IsRun(l: Lock, evs: seq<Event>)
    decreases |evs|
  {
    evs == [] || (Enabled(l, evs[0].thread, evs[0].act) && IsRun(Step(l, evs[0].thread, evs[0].act), evs[1..]))
  }

  function Final(l: Lock, evs: seq<Event>): Lock
    requires IsRun(l, evs)
    decreases |evs|
  {
    if evs == [] then l else Final(Step(l, evs[0].thread, evs[0].act), evs[1..])
  }

  // ---- counting threads ----

  function Count(ts: seq<Phase>, p: Phase): nat {
    if ts == [] then 0 else (if ts[0] == p then 1 else 0) + Count(ts[1..], p)
  }

  lemma {:induction false} CountUpdate(ts: seq<Phase>, i: nat, x: Phase, p: Phase)
    requires i < |ts|
    ensures Count(ts[i := x], p) == Count(ts, p) - (if ts[i] == p then 1 else 0) + (if x == p then 1 else 0)
  {
    if i > 0 {
      CountUpdate(ts[1..], i - 1, x, p);
      assert ts[i := x][1..] == ts[1..][i - 1 := x];
    }
  }

  lemma {:induction false} CountIn(ts: seq<Phase>, i: nat)
    requires i < |ts|
    ensures Count(ts, ts[i]) >= 1
  {
    if i > 0 {
      CountIn(ts[1..], i - 1);
    }
  }

  lemma {:induction false} CountTwo(ts: seq<Phase>, i: nat, j: nat)
    requires i < j < |ts| && ts[i] == ts[j]
    ensures Count(ts, ts[i]) >= 2
  {
    if i > 0 {
      CountTwo(ts[1..], i - 1, j - 1);
    } else {
      CountIn(ts[1..], j - 1);
    }
  }

  lemma {:induction false} SomeIn(ts: seq<Phase>, p: Phase) returns (i: nat)
    requires Count(ts, p) > 0
    ensures i < |ts| && ts[i] == p
  {
    if ts[0] == p {
      i := 0;
    } else {
      i := SomeIn(ts[1..], p);
      i := i + 1;
    }
  }

  lemma {:induction false} CountInit(n: nat, p: Phase)
    ensures Count(Init(n).threads, p) == if p.Idle? then n else 0
  {
    if n > 0 {
      CountInit(n - 1, p);
      assert Init(n).threads[1..] == Init(n - 1).threads;
    }
  }

  // ---- the invariant ----

  /** The counter counts the threads inside or waiting; and while there are any,
      there is exactly one of: a holder, a release about to post, a post not yet
      taken up. */
  predicate Inv(l: Lock) {
    && l.cnt == Count(l.threads, Waiting) + Count(l.threads, Holding)
    && Count(l.threads, Holding) + Count(l.threads, Posting) + l.sem == if l.cnt > 0 then 1 else 0
  }

  lemma StepInv(l: Lock, t: nat, act: Act)
    requires Inv(l) && Enabled(l, t, act)
    ensures Inv(Step(l, t, act))
  {
    var x := Step(l, t, act).threads[t];
    CountUpdate(l.threads, t, x, Waiting);
    CountUpdate(l.threads, t, x, Holding);
    CountUpdate(l.threads, t, x, Posting);
  }

  lemma {:induction false} RunInv(l: Lock, evs: seq<Event>)
    requires Inv(l) && IsRun(l, evs)
    ensures Inv(Final(l, evs))
    decreases |evs|
  {
    if evs != [] {
      StepInv(l, evs[0].thread, evs[0].act);
      RunInv(Step(l, evs[0].thread, evs[0].act), evs[1..]);
    }
  }

  lemma ReachableInv(n: nat, evs: seq<Event>)
    requires IsRun(Init(n), evs)
    ensures Inv(Final(Init(n), evs))
  {
    CountInit(n, Waiting);
    CountInit(n, Holding);
    CountInit(n, Posting);
    RunInv(Init(n), evs);
  }

  // ---- what it gives ----

  /** At most one thread holds the lock, in every run of any number of threads. */
  lemma MutualExclusion(n: nat, evs: seq<Event>, i: nat, j: nat)
    requires IsRun(Init(n), evs)
    requires var ts := Final(Init(n), evs).threads; i < j < |ts| && ts[i].Holding?
    ensures !Final(Init(n), evs).threads[j].Holding?
  {
    ReachableInv(n, evs);
    var ts := Final(Init(n), evs).threads;
    if ts[j].Holding? {
      CountTwo(ts, i, j);
    }
  }

  /** Steps left until every thread is outside, if none enters. */
  function Work(l: Lock): nat {
    3 * Count(l.threads, Waiting) + 2 * Count(l.threads, Holding) + Count(l.threads, Posting)
  }

  /** Any step but a new acquire brings the lock closer to rest. */
  lemma StepWorks(l: Lock, t: nat, act: Act)
    requires Enabled(l, t, act) && act != Acquire
    ensures Work(Step(l, t, act)) < Work(l)
  {
    var x := Step(l, t, act).threads[t];
    CountUpdate(l.threads, t, x, Waiting);
    CountUpdate(l.threads, t, x, Holding);
    CountUpdate(l.threads, t, x, Posting);
  }

  /** No wake-up is lost: unless every thread is outside, some thread can go on
      without a new acquire. A waiting thread always has a holder, a pending post
      or the semaphore ahead of it. */
  lemma NoLostWakeup(n: nat, evs: seq<Event>, t: nat) returns (next: Event)
    requires IsRun(Init(n), evs)
    requires var ts := Final(Init(n), evs).threads; t < |ts| && !ts[t].Idle?
    ensures Enabled(Final(Init(n), evs), next.thread, next.act) && next.act != Acquire
  {
    ReachableInv(n, evs);
    var l := Final(Init(n), evs);
    CountIn(l.threads, t);
    if Count(l.threads, Holding) > 0 {
      var i := SomeIn(l.threads, Holding);
      next := Event(i, Release);
    } else if Count(l.threads, Posting) > 0 {
      var i := SomeIn(l.threads, Posting);
      next := Event(i, Post);
    } else {
      next := Event(t, Wait);
    }
  }

  lemma {:induction false} RunAppend(l: Lock, evs: seq<Event>, next: Event)
    requires IsRun(l, evs) && Enabled(Final(l, evs), next.thread, next.act)
    ensures IsRun(l, evs + [next]) && Final(l, evs + [next]) == Step(Final(l, evs), next.thread, next.act)
    decreases |evs|
  {
    if evs == [] {
      assert IsRun(Step(l, next.thread, next.act), [next][1..]);
    } else {
      RunAppend(Step(l, evs[0].thread, evs[0].act), evs[1..], next);
      assert (evs + [next])[1..] == evs[1..] + [next];
    }
  }

  /** So from every reachable state, letting threads that have started finish
      leads to rest within Work steps: none is stranded at the semaphore. */
  lemma {:induction false} Drains(n: nat, evs: seq<Event>) returns (more: seq<Event>)
    requires IsRun(Init(n), evs)
    ensures IsRun(Init(n), evs + more) && |more| <= Work(Final(Init(n), evs))
    ensures var l := Final(Init(n), evs + more);
      l.cnt == 0 && l.sem == 0 && forall t :: 0 <= t < |l.threads| ==> l.threads[t].Idle?
    decreases Work(Final(Init(n), evs))
  {
    var l := Final(Init(n), evs);
    if t :| 0 <= t < |l.threads| && !l.threads[t].Idle? {
      var next := NoLostWakeup(n, evs, t);
      StepWorks(l, next.thread, next.act);
      RunAppend(Init(n), evs, next);
      more := Drains(n, evs + [next]);
      assert evs + ([next] + more) == evs + [next] + more;
      more := [next] + more;
    } else {
      more := [];
      assert evs + more == evs;
      ReachableInv(n, evs);
      NoneIn(l.threads, Waiting);
      NoneIn(l.threads, Holding);
    }
  }

  /** No thread can go on without a new acquire. */
  ghost predicate Exhausted(l: Lock) {
    forall ev: Event :: ev.act != Acquire ==> !Enabled(l, ev.thread, ev.act)
  }

  predicate NoAcquire(evs: seq<Event>) {
    forall i :: 0 <= i < |evs| ==> evs[i].act != Acquire
  }

  lemma {:induction false} RunSplit(l: Lock, evs: seq<Event>, more: seq<Event>)
    requires IsRun(l, evs + more)
    ensures IsRun(l, evs) && IsRun(Final(l, evs), more) && Final(l, evs + more) == Final(Final(l, evs), more)
    decreases |evs|
  {
    if evs == [] {
      assert evs + more == more;
    } else {
      assert (evs + more)[1..] == evs[1..] + more;
      RunSplit(Step(l, evs[0].thread, evs[0].act), evs[1..], more);
    }
  }

  lemma {:induction false} RunWorks(l: Lock, evs: seq<Event>)
    requires IsRun(l, evs) && NoAcquire(evs)
    ensures |evs| + Work(Final(l, evs)) <= Work(l)
    decreases |evs|
  {
    if evs != [] {
      StepWorks(l, evs[0].thread, evs[0].act);
      RunWorks(Step(l, evs[0].thread, evs[0].act), evs[1..]);
    }
  }

  /** However the threads that have started go on from a reachable state, they make at
      most Work steps, and when none can go on every one of them is outside. */
  lemma AllDrain(n: nat, evs: seq<Event>, more: seq<Event>)
    requires IsRun(Init(n), evs + more) && NoAcquire(more)
    ensures IsRun(Init(n), evs) && |more| <= Work(Final(Init(n), evs))
    ensures Exhausted(Final(Init(n), evs + more)) ==>
      var l := Final(Init(n), evs + more);
        l.cnt == 0 && l.sem == 0 && forall t :: 0 <= t < |l.threads| ==> l.threads[t].Idle?
  {
    RunSplit(Init(n), evs, more);
    RunWorks(Final(Init(n), evs), more);
    var l := Final(Init(n), evs + more);
    if Exhausted(l) {
      forall t | 0 <= t < |l.threads|
        ensures l.threads[t].Idle?
      {
        if !l.threads[t].Idle? {
          var next := NoLostWakeup(n, evs + more, t);
        }
      }
      ReachableInv(n, evs + more);
      NoneIn(l.threads, Waiting);
      NoneIn(l.threads, Holding);
    }
  }

  lemma NoneIn(ts: seq<Phase>, p: Phase)
    requires forall t :: 0 <= t < |ts| ==> ts[t] != p
    ensures Count(ts, p) == 0
  {
    if Count(ts, p) > 0 {
      var i := SomeIn(ts, p);
    }
  }
}
