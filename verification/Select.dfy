/** select on top of rpoll: the descriptor sets are turned into a pollfd array and
    the results are turned back by scanning the descriptors again. */
module Select {
  import opened Common

  datatype Events = Events(input: bool, output: bool, other: bool)

  datatype Pollfd = Pollfd(fd: int, events: Events, revents: Events)

  /** A null pointer or a set of descriptors. */
  type FdSet = Option<set<nat>>

  predicate IsSet(s: FdSet, fd: nat) {
    s.Some? && fd in s.value
  }

  /** fd_getd: the descriptor behind an index, itself when it is not mapped. */
  function Getd(idm: map<nat, int>, index: nat): int {
    if index in idm then idm[index] else index
  }

  predicate Asked(fd: nat, r: FdSet, w: FdSet, e: FdSet) {
    IsSet(r, fd) || IsSet(w, fd) || IsSet(e, fd)
  }

  /** The descriptors below n that were asked for, in order. */
  function Picked(n: nat, r: FdSet, w: FdSet, e: FdSet): seq<nat> {
    if n == 0 then [] else Picked(n - 1, r, w, e) + if Asked(n - 1, r, w, e) then [n - 1] else []
  }

  function Wanted(fd: nat, r: FdSet, w: FdSet): Events {
    Events(IsSet(r, fd), IsSet(w, fd), false)
  }

  /** The entries are those of the picked descriptors. */
  predicate Built(idm: map<nat, int>, fds: seq<Pollfd>, picked: seq<nat>, r: FdSet, w: FdSet) {
    && |fds| >= |picked|
    && forall i :: 0 <= i < |picked| ==> fds[i].fd == Getd(idm, picked[i]) && fds[i].events == Wanted(picked[i], r, w)
  }

  /** What the entries ask for, said of the caller's sets. */
  lemma EntriesAsk(idm: map<nat, int>, fds: seq<Pollfd>, n: nat, r: FdSet, w: FdSet, e: FdSet, i: nat)
    requires Built(idm, fds, Picked(n, r, w, e), r, w) && i < |Picked(n, r, w, e)|
    ensures var fd := Picked(n, r, w, e)[i];
      && fd < n && (fds[i].events.input <==> r.Some? && fd in r.value)
      && (fds[i].events.output <==> w.Some? && fd in w.value) && !fds[i].events.other
      && (fds[i].events.input || fds[i].events.output || (e.Some? && fd in e.value))
  {
    PickedBelow(n, r, w, e);
    assert Picked(n, r, w, e)[i] in Picked(n, r, w, e);
  }

  /** select_to_rpoll: fills the front of the array and returns its length. */
  method SelectToRpoll(idm: map<nat, int>, fds: array<Pollfd>, nfds: nat, r: FdSet, w: FdSet, e: FdSet) returns (n: nat)
    requires nfds <= fds.Length
    modifies fds
    ensures n == |Picked(nfds, r, w, e)| <= nfds && Built(idm, fds[..], Picked(nfds, r, w, e), r, w)
    ensures forall i :: 0 <= i < n ==>
      && (fds[i].events.input <==> IsSet(r, Picked(nfds, r, w, e)[i]))
      && (fds[i].events.output <==> IsSet(w, Picked(nfds, r, w, e)[i]))
  {
    n := 0;
    var fd := 0;
    while fd < nfds
      invariant fd <= nfds && n == |Picked(fd, r, w, e)| <= fd
      invariant Built(idm, fds[..], Picked(fd, r, w, e), r, w)
    {
      var events := Events(IsSet(r, fd), false, false);
      if IsSet(w, fd) {
        events := events.(output := true);
      }
      if events.input || events.output || IsSet(e, fd) {
        fds[n] := fds[n].(fd := Getd(idm, fd), events := events);
        n := n + 1;
      }
      fd := fd + 1;
    }
  }

  // ---- the scan back ----

  predicate Ascending(s: seq<nat>) {
    forall i, j :: 0 <= i < j < |s| ==> s[i] < s[j]
  }

  /** From `from` on, the descriptors `at` in order lead to those in `fds`. */
  predicate Embeds(idm: map<nat, int>, fds: seq<Pollfd>, at: seq<nat>, from: nat) {
    && |at| == |fds| && Ascending(at) && (at != [] ==> from <= at[0])
    && forall i :: 0 <= i < |at| ==> Getd(idm, at[i]) == fds[i].fd
  }

  /** The descriptor the scan attributes each entry to: the first one behind the
      previous with the same descriptor behind it. It is defined because there is
      some way `at` to place all entries. */
  function Greedy(idm: map<nat, int>, fds: seq<Pollfd>, at: seq<nat>, from: nat): (r: seq<nat>)
    requires Embeds(idm, fds, at, from)
    ensures Embeds(idm, fds, r, from)
    decreases |fds|, if at == [] then 0 else at[0] - from
  {
    if fds == [] then []
    else if Getd(idm, from) == fds[0].fd then [from] + Greedy(idm, fds[1..], at[1..], from + 1)
    else Greedy(idm, fds, at, from + 1)
  }

  /** One step of the scan, with a place left for every entry not yet matched. */
  lemma GreedyStep(idm: map<nat, int>, fds: seq<Pollfd>, at: seq<nat>, from: nat)
    requires Embeds(idm, fds, at, from) && fds != []
    ensures at != [] && from <= at[0] && Getd(idm, at[0]) == fds[0].fd
    ensures if Getd(idm, from) == fds[0].fd
      then Embeds(idm, fds[1..], at[1..], from + 1)
           && Greedy(idm, fds, at, from) == [from] + Greedy(idm, fds[1..], at[1..], from + 1)
      else from < at[0] && Embeds(idm, fds, at, from + 1)
           && Greedy(idm, fds, at, from) == Greedy(idm, fds, at, from + 1)
  {
  }

  lemma GreedyEnd(idm: map<nat, int>, at: seq<nat>, from: nat)
    requires Embeds(idm, [], at, from)
    ensures at == [] && Greedy(idm, [], at, from) == []
  {
  }

  /** What one set reports: the places whose result has the given property. */
  function Reported(asked: bool, at: seq<nat>, fds: seq<Pollfd>, p: Events -> bool): set<nat>
    requires |at| <= |fds|
  {
    if asked then set i | 0 <= i < |at| && p(fds[i].revents) :: at[i] else {}
  }

  const POLLIN := (v: Events) => v.input
  const POLLOUT := (v: Events) => v.output
  const POLLOTHER := (v: Events) => v.other

  lemma ReportedMore(asked: bool, at: seq<nat>, fds: seq<Pollfd>, p: Events -> bool, fd: nat)
    requires |at| < |fds| && Ascending(at + [fd])
    ensures var more := asked && p(fds[|at|].revents);
      && Reported(asked, at + [fd], fds, p) == Reported(asked, at, fds, p) + (if more then {fd} else {})
      && fd !in Reported(asked, at, fds, p)
  {
    var at' := at + [fd];
    forall i | 0 <= i < |at|
      ensures at'[i] == at[i] < fd
    {
      assert at'[i] < at'[|at|];
    }
    forall x
      ensures x in Reported(asked, at', fds, p)
         <==> x in Reported(asked, at, fds, p) + (if asked && p(fds[|at|].revents) then {fd} else {})
    {
      if x in Reported(asked, at, fds, p) {
        var i :| 0 <= i < |at| && p(fds[i].revents) && at[i] == x;
        assert at'[i] == x;
      }
      if asked && p(fds[|at|].revents) && x == fd {
        assert at'[|at|] == x;
      }
    }
  }

  /** FD_SET and the count, when a result is there to report. */
  method Report(hit: bool, s: set<nat>, fd: nat, cnt: nat) returns (s': set<nat>, cnt': nat)
    requires fd !in s
    ensures s' == s + (if hit then {fd} else {}) && cnt' - cnt == |s'| - |s|
  {
    s', cnt' := s, cnt;
    if hit {
      s', cnt' := s + {fd}, cnt + 1;
    }
  }

  /** rpoll_to_select ends on every array that select_to_rpoll built, and reports
      each result for the descriptor its scan matches it to. */
  method RpollToSelect(idm: map<nat, int>, fds: seq<Pollfd>, hasR: bool, hasW: bool, hasE: bool, ghost picked: seq<nat>)
    returns (r: set<nat>, w: set<nat>, e: set<nat>, cnt: nat)
    requires Embeds(idm, fds, picked, 0)
    ensures var at := Greedy(idm, fds, picked, 0);
      && r == Reported(hasR, at, fds, POLLIN) && w == Reported(hasW, at, fds, POLLOUT)
      && e == Reported(hasE, at, fds, POLLOTHER)
      && cnt == |r| + |w| + |e|
  {
    hide Greedy, Embeds, Reported, Scanned;
    r, w, e, cnt := {}, {}, {}, 0;
    NoneReported(hasR, hasW, hasE, fds);
    ScanStart(idm, fds, picked);
    var i: nat, fd: nat := 0, 0;
    ghost var at: seq<nat>, rest: seq<nat> := [], picked;
    while i < |fds|
      invariant i == |at| <= |fds| && Scanned(idm, fds, picked, at, rest, fd)
      invariant r == Reported(hasR, at, fds, POLLIN) && w == Reported(hasW, at, fds, POLLOUT)
      invariant e == Reported(hasE, at, fds, POLLOTHER)
      invariant cnt == |r| + |w| + |e|
      decreases |fds| - i, if rest == [] then 0 else rest[0] - fd
    {
      ScanStep(idm, fds, picked, at, rest, fd);
      var rfd := Getd(idm, fd);
      if rfd == fds[i].fd {
        ReportedMore(hasR, at, fds, POLLIN, fd);
        ReportedMore(hasW, at, fds, POLLOUT, fd);
        ReportedMore(hasE, at, fds, POLLOTHER, fd);
        r, cnt := Report(hasR && fds[i].revents.input, r, fd, cnt);
        w, cnt := Report(hasW && fds[i].revents.output, w, fd, cnt);
        e, cnt := Report(hasE && fds[i].revents.other, e, fd, cnt);
        at, rest := at + [fd], rest[1..];
        i := i + 1;
      }
      fd := fd + 1;
    }
    ScanEnd(idm, fds, picked, at, rest, fd);
  }

  /** The scan has placed the first entries at `at` and is at descriptor fd. */
  ghost predicate Scanned(idm: map<nat, int>, fds: seq<Pollfd>, picked: seq<nat>, at: seq<nat>, rest: seq<nat>,
                          fd: nat) {
    && |at| <= |fds| && Embeds(idm, fds, picked, 0) && Embeds(idm, fds[|at|..], rest, fd)
    && Greedy(idm, fds, picked, 0) == at + Greedy(idm, fds[|at|..], rest, fd)
  }

  lemma ScanStart(idm: map<nat, int>, fds: seq<Pollfd>, picked: seq<nat>)
    requires Embeds(idm, fds, picked, 0)
    ensures Scanned(idm, fds, picked, [], picked, 0)
  {
    hide Greedy, Embeds;
    assert fds[0..] == fds;
  }

  lemma ScanStep(idm: map<nat, int>, fds: seq<Pollfd>, picked: seq<nat>, at: seq<nat>, rest: seq<nat>, fd: nat)
    requires Scanned(idm, fds, picked, at, rest, fd) && |at| < |fds|
    ensures rest != [] && fd <= rest[0]
    ensures if Getd(idm, fd) == fds[|at|].fd
      then Scanned(idm, fds, picked, at + [fd], rest[1..], fd + 1) && Ascending(at + [fd])
      else Scanned(idm, fds, picked, at, rest, fd + 1) && fd < rest[0]
  {
    hide Greedy, Embeds;
    GreedyStep(idm, fds[|at|..], rest, fd);
    if Getd(idm, fd) == fds[|at|].fd {
      assert fds[|at|..][1..] == fds[|at| + 1..];
      assert Greedy(idm, fds, picked, 0) == at + [fd] + Greedy(idm, fds[|at| + 1..], rest[1..], fd + 1);
      GreedyAscends(idm, fds, picked, at + [fd], Greedy(idm, fds, picked, 0));
    }
  }

  lemma ScanEnd(idm: map<nat, int>, fds: seq<Pollfd>, picked: seq<nat>, at: seq<nat>, rest: seq<nat>, fd: nat)
    requires Scanned(idm, fds, picked, at, rest, fd) && |at| == |fds|
    ensures Embeds(idm, fds, picked, 0) && Greedy(idm, fds, picked, 0) == at
  {
    hide Greedy, Embeds;
    assert fds[|at|..] == [];
    GreedyEnd(idm, rest, fd);
  }

  lemma NoneReported(hasR: bool, hasW: bool, hasE: bool, fds: seq<Pollfd>)
    ensures Reported(hasR, [], fds, POLLIN) == {} && Reported(hasW, [], fds, POLLOUT) == {}
    ensures Reported(hasE, [], fds, POLLOTHER) == {}
  {
  }

  lemma GreedyAscends(idm: map<nat, int>, fds: seq<Pollfd>, picked: seq<nat>, front: seq<nat>, all: seq<nat>)
    requires Embeds(idm, fds, picked, 0) && all == Greedy(idm, fds, picked, 0) && front <= all
    ensures Ascending(front)
  {
    assert forall i :: 0 <= i < |front| ==> front[i] == all[i];
  }

  // ---- what select_to_rpoll built can be scanned ----

  lemma {:induction false} PickedBelow(n: nat, r: FdSet, w: FdSet, e: FdSet)
    ensures Ascending(Picked(n, r, w, e)) && |Picked(n, r, w, e)| <= n
    ensures forall i :: 0 <= i < |Picked(n, r, w, e)| ==> Picked(n, r, w, e)[i] < n
    ensures forall fd: nat :: fd in Picked(n, r, w, e) <==> fd < n && Asked(fd, r, w, e)
  {
    if n > 0 {
      PickedBelow(n - 1, r, w, e);
    }
  }

  /** With the descriptor map unchanged, the scan terminates. */
  lemma ScanDefined(idm: map<nat, int>, fds: seq<Pollfd>, n: nat, r: FdSet, w: FdSet, e: FdSet)
    requires Built(idm, fds, Picked(n, r, w, e), r, w) && |fds| == |Picked(n, r, w, e)|
    ensures Embeds(idm, fds, Picked(n, r, w, e), 0)
  {
    PickedBelow(n, r, w, e);
  }

  // ---- attribution ----

  /** Behind the previous place, no descriptor before at[i] shares its target. */
  predicate Clear(idm: map<nat, int>, at: seq<nat>, from: nat, i: nat)
    requires i < |at|
  {
    forall fd: nat :: (if i == 0 then from else at[i - 1] + 1) <= fd < at[i] ==> Getd(idm, fd) != Getd(idm, at[i])
  }

  predicate Unambiguous(idm: map<nat, int>, at: seq<nat>, from: nat) {
    forall i :: 0 <= i < |at| ==> Clear(idm, at, from, i)
  }

  lemma ClearTail(idm: map<nat, int>, at: seq<nat>, from: nat)
    requires at != [] && Getd(idm, from) == Getd(idm, at[0]) && from == at[0]
    ensures Unambiguous(idm, at, from) <==> Unambiguous(idm, at[1..], from + 1)
  {
    var rest, next := at[1..], from + 1;
    if Unambiguous(idm, at, from) {
      forall i | 0 <= i < |rest|
        ensures Clear(idm, rest, next, i)
      {
        assert Clear(idm, at, from, i + 1);
      }
    }
    if Unambiguous(idm, rest, from + 1) {
      forall i | 0 <= i < |at|
        ensures Clear(idm, at, from, i)
      {
        if i > 0 {
          assert Clear(idm, rest, from + 1, i - 1);
        }
      }
    }
  }

  lemma ClearSkip(idm: map<nat, int>, at: seq<nat>, from: nat)
    requires at != [] && from < at[0] && Getd(idm, from) != Getd(idm, at[0])
    ensures Unambiguous(idm, at, from) <==> Unambiguous(idm, at, from + 1)
  {
    var next := from + 1;
    if Unambiguous(idm, at, from) {
      forall i | 0 <= i < |at|
        ensures Clear(idm, at, next, i)
      {
        assert Clear(idm, at, from, i);
      }
    }
    if Unambiguous(idm, at, from + 1) {
      forall i | 0 <= i < |at|
        ensures Clear(idm, at, from, i)
      {
        assert Clear(idm, at, from + 1, i);
      }
    }
  }

  /** Every result is attributed to the descriptor it came from exactly when no
      other descriptor in between shares its target. */
  lemma {:induction false} AttributionExact(idm: map<nat, int>, fds: seq<Pollfd>, at: seq<nat>, from: nat)
    requires Embeds(idm, fds, at, from)
    ensures Greedy(idm, fds, at, from) == at <==> Unambiguous(idm, at, from)
    decreases |fds|, if at == [] then 0 else at[0] - from
  {
    hide Greedy, Unambiguous, Embeds;
    if fds == [] {
      GreedyEnd(idm, at, from);
      NothingAmbiguous(idm, from);
    } else {
      GreedyStep(idm, fds, at, from);
      if Getd(idm, from) != fds[0].fd {
        AttributionExact(idm, fds, at, from + 1);
        ClearSkip(idm, at, from);
      } else if from == at[0] {
        AttributionExact(idm, fds[1..], at[1..], from + 1);
        ClearTail(idm, at, from);
        assert at == [at[0]] + at[1..];
      } else {
        Ambiguous(idm, at, from);
      }
    }
  }

  lemma NothingAmbiguous(idm: map<nat, int>, from: nat)
    ensures Unambiguous(idm, [], from)
  {
  }

  lemma Ambiguous(idm: map<nat, int>, at: seq<nat>, from: nat)
    requires at != [] && from < at[0] && Getd(idm, from) == Getd(idm, at[0])
    ensures !Unambiguous(idm, at, from)
  {
    assert !Clear(idm, at, from, 0);
  }

  predicate Injective(idm: map<nat, int>, n: nat) {
    forall i: nat, j: nat :: i < j < n ==> Getd(idm, i) != Getd(idm, j)
  }

  /** So always when the map is injective on the descriptors scanned. */
  lemma AttributionWhenInjective(idm: map<nat, int>, fds: seq<Pollfd>, n: nat, r: FdSet, w: FdSet, e: FdSet)
    requires Built(idm, fds, Picked(n, r, w, e), r, w) && |fds| == |Picked(n, r, w, e)| && Injective(idm, n)
    ensures Embeds(idm, fds, Picked(n, r, w, e), 0) && Greedy(idm, fds, Picked(n, r, w, e), 0) == Picked(n, r, w, e)
  {
    ScanDefined(idm, fds, n, r, w, e);
    PickedBelow(n, r, w, e);
    AttributionExact(idm, fds, Picked(n, r, w, e), 0);
  }

  lemma {:induction false} PickedOnly(n: nat, b: nat)
    ensures Picked(n, Some({b}), None, None) == if b < n then [b] else []
  {
    if n > 0 {
      PickedOnly(n - 1, b);
    }
  }

  lemma {:induction false} FirstMatch(idm: map<nat, int>, p: Pollfd, a: nat, b: nat, from: nat)
    requires from <= a <= b && Getd(idm, a) == Getd(idm, b) == p.fd
    requires forall fd: nat :: from <= fd < a ==> Getd(idm, fd) != p.fd
    ensures Embeds(idm, [p], [b], from) && Greedy(idm, [p], [b], from) == [a]
    decreases a - from
  {
    GreedyStep(idm, [p], [b], from);
    if from < a {
      FirstMatch(idm, p, a, b, from + 1);
    } else {
      GreedyEnd(idm, [], from + 1);
      assert [p][1..] == [] && [b][1..] == [];
    }
  }

  /** And not in general: whenever a lower descriptor a shares b's target, what
      select was asked about b alone is reported for the first such a. */
  lemma DuplicateMisattributed(idm: map<nat, int>, a: nat, b: nat, n: nat, p: Pollfd)
    requires a < b < n && Getd(idm, a) == Getd(idm, b) == p.fd
    requires forall fd: nat :: fd < a ==> Getd(idm, fd) != p.fd
    ensures var picked := Picked(n, Some({b}), None, None);
      picked == [b] && Embeds(idm, [p], picked, 0) && Greedy(idm, [p], picked, 0) == [a]
  {
    PickedOnly(n, b);
    FirstMatch(idm, p, a, b, 0);
  }

  // ---- select as a whole ----

  /** rpoll, when `ready` says what each descriptor is ready for: input and output
      are reported where they are asked for, anything else always. */
  function Ready(p: Pollfd, ready: int -> Events): Events {
    Events(p.events.input && ready(p.fd).input, p.events.output && ready(p.fd).output, ready(p.fd).other)
  }

  function Answered(fds: seq<Pollfd>, ready: int -> Events): (r: seq<Pollfd>)
    ensures |r| == |fds|
  {
    seq(|fds|, i requires 0 <= i < |fds| => fds[i].(revents := Ready(fds[i], ready)))
  }

  /** The number of entries with something to report. */
  function Hits(fds: seq<Pollfd>): nat {
    if fds == [] then 0
    else (if fds[0].revents != Events(false, false, false) then 1 else 0) + Hits(fds[1..])
  }

  /** The descriptors of a set below n that are ready in the given way. */
  function Due(idm: map<nat, int>, n: nat, s: FdSet, ready: int -> Events, p: Events -> bool): set<nat> {
    set fd: nat | fd < n && IsSet(s, fd) && p(ready(Getd(idm, fd)))
  }

  /** The descriptors below n asked for at all and ready in another way. */
  function Troubled(idm: map<nat, int>, n: nat, r: FdSet, w: FdSet, e: FdSet, ready: int -> Events): set<nat> {
    set fd: nat | fd < n && Asked(fd, r, w, e) && ready(Getd(idm, fd)).other
  }

  lemma {:induction false} NoHits(fds: seq<Pollfd>, i: nat)
    requires Hits(fds) == 0 && i < |fds|
    ensures fds[i].revents == Events(false, false, false)
  {
    if i > 0 {
      NoHits(fds[1..], i - 1);
    }
  }

  lemma Place(asked: bool, at: seq<nat>, fds: seq<Pollfd>, p: Events -> bool, i: nat)
    requires Ascending(at) && i < |at| <= |fds|
    ensures at[i] in Reported(asked, at, fds, p) <==> asked && p(fds[i].revents)
  {
  }

  lemma NoPlace(asked: bool, at: seq<nat>, fds: seq<Pollfd>, p: Events -> bool, fd: nat)
    requires |at| <= |fds| && fd !in at
    ensures fd !in Reported(asked, at, fds, p)
  {
  }

  /** What the sets say of one descriptor when each result goes where it came from. */
  lemma ReportedOne(idm: map<nat, int>, fds: seq<Pollfd>, n: nat, r: FdSet, w: FdSet, e: FdSet, ready: int -> Events,
                    fd: nat)
    requires Built(idm, fds, Picked(n, r, w, e), r, w) && |fds| == |Picked(n, r, w, e)|
    ensures var picked, out, at := Picked(n, r, w, e), Answered(fds, ready), ready(Getd(idm, fd));
      && (fd in Reported(r.Some?, picked, out, POLLIN) <==> fd < n && IsSet(r, fd) && at.input)
      && (fd in Reported(w.Some?, picked, out, POLLOUT) <==> fd < n && IsSet(w, fd) && at.output)
      && (fd in Reported(e.Some?, picked, out, POLLOTHER) <==> fd < n && e.Some? && Asked(fd, r, w, e) && at.other)
  {
    hide Reported;
    var picked, out := Picked(n, r, w, e), Answered(fds, ready);
    PickedBelow(n, r, w, e);
    if fd < n && Asked(fd, r, w, e) {
      var i :| 0 <= i < |picked| && picked[i] == fd;
      assert out[i].revents == Ready(fds[i], ready);
      Place(r.Some?, picked, out, POLLIN, i);
      Place(w.Some?, picked, out, POLLOUT, i);
      Place(e.Some?, picked, out, POLLOTHER, i);
    } else {
      NoPlace(r.Some?, picked, out, POLLIN, fd);
      NoPlace(w.Some?, picked, out, POLLOUT, fd);
      NoPlace(e.Some?, picked, out, POLLOTHER, fd);
    }
  }

  /** The sets select returns when each result goes where it came from: those asked
      for that are ready, and in the third one every descriptor asked for in any of
      the three that is ready in another way. */
  lemma ReportedIsDue(idm: map<nat, int>, fds: seq<Pollfd>, n: nat, r: FdSet, w: FdSet, e: FdSet, ready: int -> Events)
    requires Built(idm, fds, Picked(n, r, w, e), r, w) && |fds| == |Picked(n, r, w, e)|
    ensures var picked, out := Picked(n, r, w, e), Answered(fds, ready);
      && Reported(r.Some?, picked, out, POLLIN) == Due(idm, n, r, ready, POLLIN)
      && Reported(w.Some?, picked, out, POLLOUT) == Due(idm, n, w, ready, POLLOUT)
      && Reported(e.Some?, picked, out, POLLOTHER) == if e.Some? then Troubled(idm, n, r, w, e, ready) else {}
  {
    hide Reported, Built;
    forall fd: nat {
      ReportedOne(idm, fds, n, r, w, e, ready, fd);
    }
  }

  /** The array select_to_rpoll leaves for rpoll. */
  function Entries(idm: map<nat, int>, picked: seq<nat>, r: FdSet, w: FdSet): (fds: seq<Pollfd>)
    ensures |fds| == |picked| && Built(idm, fds, picked, r, w)
  {
    seq(|picked|, i requires 0 <= i < |picked| =>
      Pollfd(Getd(idm, picked[i]), Wanted(picked[i], r, w), Events(false, false, false)))
  }

  lemma EntriesBuilt(idm: map<nat, int>, fds: seq<Pollfd>, picked: seq<nat>, r: FdSet, w: FdSet, ready: int -> Events)
    requires Built(idm, fds, picked, r, w)
    ensures Answered(fds[..|picked|], ready) == Answered(Entries(idm, picked, r, w), ready)
  {
    var a, b := Answered(fds[..|picked|], ready), Answered(Entries(idm, picked, r, w), ready);
    forall i | 0 <= i < |picked|
      ensures a[i] == b[i]
    {
      assert fds[..|picked|][i] == fds[i];
    }
  }

  /** What rpoll answered, and that the scan can place it. */
  lemma AnswersPlaced(idm: map<nat, int>, n: nat, r: FdSet, w: FdSet, e: FdSet, ready: int -> Events)
    ensures Embeds(idm, Answered(Entries(idm, Picked(n, r, w, e), r, w), ready), Picked(n, r, w, e), 0)
  {
    ScanDefined(idm, Answered(Entries(idm, Picked(n, r, w, e), r, w), ready), n, r, w, e);
  }

  /** select through rpoll. When no descriptor shares the target of one asked for
      ahead of it, select reports exactly what it was asked for and is ready; it
      always returns the number of descriptors reported. */
  method Select(idm: map<nat, int>, nfds: nat, r: FdSet, w: FdSet, e: FdSet, ready: int -> Events)
    returns (r': set<nat>, w': set<nat>, e': set<nat>, cnt: nat)
    ensures Embeds(idm, Answered(Entries(idm, Picked(nfds, r, w, e), r, w), ready), Picked(nfds, r, w, e), 0)
    ensures var out := Answered(Entries(idm, Picked(nfds, r, w, e), r, w), ready);
      var at := Greedy(idm, out, Picked(nfds, r, w, e), 0);
      && r' == Reported(r.Some?, at, out, POLLIN) && w' == Reported(w.Some?, at, out, POLLOUT)
      && e' == Reported(e.Some?, at, out, POLLOTHER)
    ensures Unambiguous(idm, Picked(nfds, r, w, e), 0) ==>
      && r' == Due(idm, nfds, r, ready, POLLIN) && w' == Due(idm, nfds, w, ready, POLLOUT)
      && e' == if e.Some? then Troubled(idm, nfds, r, w, e, ready) else {}
    ensures cnt == |r'| + |w'| + |e'|
  {
    hide Greedy, Embeds, Reported, Built, Due, Troubled, Unambiguous;
    var fds := new Pollfd[nfds](_ => Pollfd(0, Events(false, false, false), Events(false, false, false)));
    var n := SelectToRpoll(idm, fds, nfds, r, w, e);
    ghost var picked := Picked(nfds, r, w, e);
    var out := Answered(fds[..n], ready);
    assert fds[..][..n] == fds[..n];
    EntriesBuilt(idm, fds[..], picked, r, w, ready);
    AnswersPlaced(idm, nfds, r, w, e, ready);
    AttributionExact(idm, out, picked, 0);
    ReportedIsDue(idm, Entries(idm, picked, r, w), nfds, r, w, e, ready);
    if Hits(out) > 0 {
      r', w', e', cnt := RpollToSelect(idm, out, r.Some?, w.Some?, e.Some?, picked);
    } else {
      GreedyFits(idm, out, picked);
      NothingReported(r.Some?, w.Some?, e.Some?, Greedy(idm, out, picked, 0), out);
      r', w', e', cnt := {}, {}, {}, 0;
    }
  }

  lemma GreedyFits(idm: map<nat, int>, fds: seq<Pollfd>, at: seq<nat>)
    requires Embeds(idm, fds, at, 0)
    ensures |Greedy(idm, fds, at, 0)| == |fds|
  {
    hide Greedy;
  }

  lemma NothingReported(hasR: bool, hasW: bool, hasE: bool, at: seq<nat>, fds: seq<Pollfd>)
    requires |at| <= |fds| && Hits(fds) == 0
    ensures Reported(hasR, at, fds, POLLIN) == {} && Reported(hasW, at, fds, POLLOUT) == {}
    ensures Reported(hasE, at, fds, POLLOTHER) == {}
  {
    forall i | 0 <= i < |fds|
      ensures fds[i].revents == Events(false, false, false)
    {
      NoHits(fds, i);
    }
  }

  /** The third set stays within what was asked of it exactly when no descriptor that
      was asked for only in the other two is ready in another way. */
  lemma ExceptWithin(idm: map<nat, int>, n: nat, r: FdSet, w: FdSet, e: set<nat>, ready: int -> Events)
    ensures Troubled(idm, n, r, w, Some(e), ready) <= e
      <==> forall fd: nat :: fd < n && (IsSet(r, fd) || IsSet(w, fd)) && fd !in e ==> !ready(Getd(idm, fd)).other
  {
    var all := Troubled(idm, n, r, w, Some(e), ready);
    if all <= e {
      forall fd: nat | fd < n && (IsSet(r, fd) || IsSet(w, fd)) && fd !in e
        ensures !ready(Getd(idm, fd)).other
      {
        assert fd !in all;
      }
    }
  }

  /** So a caller that asks only whether b can be read learns in the third set that
      it has hung up. */
  lemma ExceptUnasked(idm: map<nat, int>, n: nat, b: nat, ready: int -> Events)
    requires b < n && ready(Getd(idm, b)).other
    ensures Troubled(idm, n, Some({b}), None, Some({}), ready) == {b}
  {
  }
}
