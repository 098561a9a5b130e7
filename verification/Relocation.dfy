/** The router's in-place relocation of posted work requests. A request arrives as
    a flat array of work requests and one of scatter/gather entries; before they
    are posted the list pointers are rebuilt and the client's addresses are turned
    into the router's. Pointers into the two arrays are indices here. */
module Relocation {
  import opened Common
  import opened Pacing
  import TB = TokenBucket

  function W64(x: int): int {
    x % TWO64
  }

  datatype Opcode = RdmaWrite | RdmaWriteImm | RdmaRead | TwoSided

  datatype Wr = Wr(opcode: Opcode, rkey: nat, remoteAddr: int, numSge: int, next: Option<nat>, sgList: Option<nat>)

  type u32 = x: int | 0 <= x < 0x1_0000_0000

  datatype Sge = Sge(addr: int, length: u32, lkey: nat)

  /** Where a remote region starts in the router and in the client. */
  datatype Mr = Mr(shm: int, mr: int)

  // ---- what a relocated request is ----

  function Used(w: Wr): nat {
    if w.numSge > 0 then w.numSge else 0
  }

  /** The entries of the requests before request i. */
  function Offset(wrs: seq<Wr>, i: nat): nat
    requires i <= |wrs|
  {
    if i == 0 then 0 else Offset(wrs, i - 1) + Used(wrs[i - 1])
  }

  predicate OneSided(w: Wr) {
    w.opcode != TwoSided
  }

  function Moved(w: Wr, mr: Option<Mr>): int {
    if OneSided(w) && mr.Some? then W64(mr.value.shm + w.remoteAddr - mr.value.mr) else w.remoteAddr
  }

  /** Request i relocated, its remote region being `mr`. */
  function Fixed(wrs: seq<Wr>, i: nat, mr: Option<Mr>): Wr
    requires i < |wrs|
  {
    wrs[i].(next := if i + 1 < |wrs| then Some(i + 1) else None,
            sgList := if wrs[i].numSge > 0 then Some(Offset(wrs, i)) else None,
            remoteAddr := Moved(wrs[i], mr))
  }

  /** lkey_ptr[lkey]: a missing key reads as a null base. */
  function Base(lkeys: map<nat, int>, lkey: nat): int {
    if lkey in lkeys then lkeys[lkey] else 0
  }

  function Rebased(lkeys: map<nat, int>, e: Sge): Sge {
    e.(addr := W64(Base(lkeys, e.lkey) + e.addr))
  }

  /** The table after reading `lkey`, which adds a missing key. */
  function Touched(lkeys: map<nat, int>, lkey: nat): map<nat, int> {
    lkeys[lkey := Base(lkeys, lkey)]
  }

  /** The same bases, with keys perhaps added. */
  ghost predicate SameBases(lkeys: map<nat, int>, lkeys': map<nat, int>) {
    forall k: nat :: Base(lkeys, k) == Base(lkeys', k)
  }

  // ---- where addresses go ----

  /** A request that names remote memory of a known region keeps its distance from
      the start of the region, which is now the router's; any other keeps its remote
      address. Nothing but the list pointers changes besides. */
  predicate SamePlace(w: Wr, w': Wr, mr: Option<Mr>) {
    && w' == w.(remoteAddr := w'.remoteAddr, next := w'.next, sgList := w'.sgList)
    && if (w.opcode == RdmaWrite || w.opcode == RdmaWriteImm || w.opcode == RdmaRead) && mr.Some?
       then 0 <= w'.remoteAddr < TWO64 && W64(w'.remoteAddr - mr.value.shm) == W64(w.remoteAddr - mr.value.mr)
       else w'.remoteAddr == w.remoteAddr
  }

  /** So an address inside the client's region goes to the same offset inside the
      router's. */
  lemma InsideRegion(w: Wr, w': Wr, mr: Mr, len: nat)
    requires SamePlace(w, w', Some(mr)) && w.opcode != TwoSided
    requires mr.mr <= w.remoteAddr < mr.mr + len && 0 <= mr.shm && mr.shm + len <= TWO64
    ensures w'.remoteAddr == mr.shm + (w.remoteAddr - mr.mr) && mr.shm <= w'.remoteAddr < mr.shm + len
  {
    var d := w.remoteAddr - mr.mr;
    assert 0 <= d < TWO64 && W64(d) == d;
    var x := w'.remoteAddr - mr.shm;
    assert -TWO64 < x < TWO64 && W64(x) == if x >= 0 then x else x + TWO64;
  }

  lemma MovedPlace(w: Wr, mr: Mr)
    ensures var a := W64(mr.shm + w.remoteAddr - mr.mr);
      0 <= a < TWO64 && W64(a - mr.shm) == W64(w.remoteAddr - mr.mr)
  {
    W64Less(mr.shm + w.remoteAddr - mr.mr, mr.shm);
  }

  lemma W64Less(x: int, y: int)
    ensures 0 <= W64(x) < TWO64 && W64(W64(x) - y) == W64(x - y)
  {
    assert x - y == (W64(x) - y) + TWO64 * (x / TWO64);
  }

  lemma RelocatedPlaces(wrs: seq<Wr>, wrs': seq<Wr>, mrs: seq<Option<Mr>>, i: nat)
    requires Relocated(wrs, wrs', mrs) && i < |wrs|
    ensures SamePlace(wrs[i], wrs'[i], mrs[i])
  {
    hide W64;
    assert wrs'[i] == Fixed(wrs, i, mrs[i]);
    if mrs[i].Some? {
      MovedPlace(wrs[i], mrs[i].value);
    }
  }

  /** An entry in use lies as far behind the base of its key, zero for an unknown
      key, as its address said; the others are untouched. */
  predicate EntriesPlaced(lkeys: map<nat, int>, sges: seq<Sge>, sges': seq<Sge>, n: nat) {
    && |sges'| == |sges|
    && forall k :: 0 <= k < |sges| ==>
         if k < n then
           && sges'[k].length == sges[k].length && sges'[k].lkey == sges[k].lkey && 0 <= sges'[k].addr < TWO64
           && W64(sges'[k].addr - if sges[k].lkey in lkeys then lkeys[sges[k].lkey] else 0) == W64(sges[k].addr)
         else sges'[k] == sges[k]
  }

  lemma RebasedPlace(base: int, addr: int)
    ensures 0 <= W64(base + addr) < TWO64 && W64(W64(base + addr) - base) == W64(addr)
  {
    W64Less(base + addr, base);
  }

  lemma DonePlaces(lkeys: map<nat, int>, sges: seq<Sge>, sges': seq<Sge>, n: nat)
    requires SgesDone(lkeys, sges, sges', n)
    ensures EntriesPlaced(lkeys, sges, sges', n)
  {
    hide W64;
    forall k | 0 <= k < |sges| && k < n
      ensures var base := if sges[k].lkey in lkeys then lkeys[sges[k].lkey] else 0;
        && sges'[k].length == sges[k].length && sges'[k].lkey == sges[k].lkey
        && 0 <= sges'[k].addr < TWO64 && W64(sges'[k].addr - base) == W64(sges[k].addr)
    {
      RebasedPlace(Base(lkeys, sges[k].lkey), sges[k].addr);
    }
  }

  // ---- the lists it forms ----

  predicate Forward(wrs: seq<Wr>) {
    forall i :: 0 <= i < |wrs| && wrs[i].next.Some? ==> i < wrs[i].next.value < |wrs|
  }

  /** The requests reached from request i through `next`. */
  function Walk(wrs: seq<Wr>, i: nat): seq<nat>
    requires i < |wrs| && Forward(wrs)
    decreases |wrs| - i
  {
    [i] + match wrs[i].next case None => [] case Some(j) => Walk(wrs, j)
  }

  /** wrs' is wrs relocated with the remote regions mrs. */
  predicate Relocated(wrs: seq<Wr>, wrs': seq<Wr>, mrs: seq<Option<Mr>>) {
    |wrs'| == |wrs| == |mrs| && forall i :: 0 <= i < |wrs| ==> wrs'[i] == Fixed(wrs, i, mrs[i])
  }

  /** The requests relocated. */
  function Built(wrs: seq<Wr>, mrs: seq<Option<Mr>>): seq<Wr>
    requires |mrs| == |wrs|
  {
    seq(|wrs|, i requires 0 <= i < |wrs| => Fixed(wrs, i, mrs[i]))
  }

  lemma BuiltOnly(wrs: seq<Wr>, wrs': seq<Wr>, mrs: seq<Option<Mr>>)
    requires |mrs| == |wrs|
    ensures Relocated(wrs, wrs', mrs) <==> wrs' == Built(wrs, mrs)
  {
  }

  function From(i: nat, n: nat): seq<nat>
    requires i <= n
    decreases n - i
  {
    if i == n then [] else [i] + From(i + 1, n)
  }

  lemma {:induction false} WalkFrom(wrs: seq<Wr>, wrs': seq<Wr>, mrs: seq<Option<Mr>>, i: nat)
    requires Relocated(wrs, wrs', mrs) && i < |wrs|
    ensures Forward(wrs') && Walk(wrs', i) == From(i, |wrs|)
    decreases |wrs| - i
  {
    assert wrs'[i] == Fixed(wrs, i, mrs[i]);
    if i + 1 < |wrs| {
      WalkFrom(wrs, wrs', mrs, i + 1);
    }
  }

  /** Following `next` from the first request visits all of them in order. */
  lemma ChainInOrder(wrs: seq<Wr>, wrs': seq<Wr>, mrs: seq<Option<Mr>>)
    requires Relocated(wrs, wrs', mrs) && wrs != []
    ensures Forward(wrs') && Walk(wrs', 0) == From(0, |wrs|)
  {
    WalkFrom(wrs, wrs', mrs, 0);
  }

  /** Entry k belongs to request i. */
  predicate Owns(w: Wr, k: nat) {
    w.numSge > 0 && w.sgList.Some? && w.sgList.value <= k < w.sgList.value + w.numSge
  }

  lemma {:induction false} OffsetMono(wrs: seq<Wr>, i: nat, j: nat)
    requires i <= j <= |wrs|
    ensures Offset(wrs, i) <= Offset(wrs, j)
    decreases j
  {
    if i < j {
      OffsetMono(wrs, i, j - 1);
    }
  }

  lemma {:induction false} OwnerBelow(wrs: seq<Wr>, wrs': seq<Wr>, mrs: seq<Option<Mr>>, n: nat, k: nat)
      returns (i: nat)
    requires Relocated(wrs, wrs', mrs) && n <= |wrs| && k < Offset(wrs, n)
    ensures i < n && Owns(wrs'[i], k)
    decreases n
  {
    if k >= Offset(wrs, n - 1) {
      i := n - 1;
      assert wrs'[i] == Fixed(wrs, i, mrs[i]);
    } else {
      i := OwnerBelow(wrs, wrs', mrs, n - 1, k);
    }
  }

  /** The slices partition the entries: every one belongs to exactly one request. */
  lemma SlicesPartition(wrs: seq<Wr>, wrs': seq<Wr>, mrs: seq<Option<Mr>>, k: nat) returns (i: nat)
    requires Relocated(wrs, wrs', mrs) && k < Offset(wrs, |wrs|)
    ensures i < |wrs| && Owns(wrs'[i], k)
    ensures forall j :: 0 <= j < |wrs| && Owns(wrs'[j], k) ==> j == i
  {
    i := OwnerBelow(wrs, wrs', mrs, |wrs|, k);
    forall j | 0 <= j < |wrs| && Owns(wrs'[j], k)
      ensures j == i
    {
      assert wrs'[j] == Fixed(wrs, j, mrs[j]) && wrs'[i] == Fixed(wrs, i, mrs[i]);
      if j < i {
        OffsetMono(wrs, j + 1, i);
      } else if i < j {
        OffsetMono(wrs, i + 1, j);
      }
    }
  }

  /** And no slice reaches outside them. */
  lemma SliceInside(wrs: seq<Wr>, wrs': seq<Wr>, mrs: seq<Option<Mr>>, i: nat, k: nat)
    requires Relocated(wrs, wrs', mrs) && i < |wrs| && Owns(wrs'[i], k)
    ensures k < Offset(wrs, |wrs|)
  {
    assert wrs'[i] == Fixed(wrs, i, mrs[i]);
    OffsetMono(wrs, i + 1, |wrs|);
  }

  /** The entries of an earlier request come before those of a later one. */
  lemma SlicesInOrder(wrs: seq<Wr>, wrs': seq<Wr>, mrs: seq<Option<Mr>>, i: nat, j: nat, k: nat, m: nat)
    requires Relocated(wrs, wrs', mrs) && i < j < |wrs| && Owns(wrs'[i], k) && Owns(wrs'[j], m)
    ensures k < m
  {
    assert wrs'[i] == Fixed(wrs, i, mrs[i]) && wrs'[j] == Fixed(wrs, j, mrs[j]);
    OffsetMono(wrs, i + 1, j);
  }

  // ---- finding the remote region ----

  /** The shared-memory path looks a key up again after sleeping, five times in
      all the requests together; tables[c] is what is registered after c sleeps. */
  function Resolve(tables: seq<map<nat, Mr>>, rkey: nat, c: nat): (r: (Option<Mr>, nat))
    requires |tables| == 6 && c <= 5
    ensures c <= r.1 <= 5
    decreases 5 - c
  {
    if rkey in tables[c] then (Some(tables[c][rkey]), c)
    else if c > 4 then (None, c)
    else Resolve(tables, rkey, c + 1)
  }

  /** The sleeps before request i. */
  function Sleeps(tables: seq<map<nat, Mr>>, wrs: seq<Wr>, i: nat): (c: nat)
    requires |tables| == 6 && i <= |wrs|
    ensures c <= 5
  {
    if i == 0 then 0
    else
      var c := Sleeps(tables, wrs, i - 1);
      if OneSided(wrs[i - 1]) then Resolve(tables, wrs[i - 1].rkey, c).1 else c
  }

  /** The region each request finds on the shared-memory path. */
  function ShmRegion(tables: seq<map<nat, Mr>>, wrs: seq<Wr>, i: nat): Option<Mr>
    requires |tables| == 6 && i < |wrs|
  {
    if OneSided(wrs[i]) then Resolve(tables, wrs[i].rkey, Sleeps(tables, wrs, i)).0 else None
  }

  lemma {:induction false} ResolveExact(tables: seq<map<nat, Mr>>, rkey: nat, c: nat)
    requires |tables| == 6 && c <= 5
    ensures var (mr, c') := Resolve(tables, rkey, c);
      && (forall j :: c <= j < c' ==> rkey !in tables[j]) && (rkey in tables[c'] || c' == 5)
      && mr == if rkey in tables[c'] then Some(tables[c'][rkey]) else None
    decreases 5 - c
  {
    if rkey !in tables[c] && c <= 4 {
      ResolveExact(tables, rkey, c + 1);
    }
  }

  /** A request that names remote memory sleeps until its key is registered, but only
      until there have been five sleeps in all, and then goes by the table at hand;
      any other request does not sleep. */
  lemma SleepsExact(tables: seq<map<nat, Mr>>, wrs: seq<Wr>, i: nat)
    requires |tables| == 6 && i < |wrs|
    ensures var c, c', key := Sleeps(tables, wrs, i), Sleeps(tables, wrs, i + 1), wrs[i].rkey;
      && c <= c' <= 5 && (wrs[i].opcode == TwoSided ==> c' == c)
      && (wrs[i].opcode != TwoSided ==>
            && (forall j :: c <= j < c' ==> key !in tables[j]) && (key in tables[c'] || c' == 5)
            && ShmRegion(tables, wrs, i) == if key in tables[c'] then Some(tables[c'][key]) else None)
  {
    ResolveExact(tables, wrs[i].rkey, Sleeps(tables, wrs, i));
  }

  /** So a key registered within the five sleeps, and not taken away again, is always
      found, and no other is. */
  lemma KeyFound(tables: seq<map<nat, Mr>>, wrs: seq<Wr>, i: nat)
    requires |tables| == 6 && i < |wrs| && wrs[i].opcode != TwoSided
    requires forall j :: 0 <= j < 5 && wrs[i].rkey in tables[j] ==>
      wrs[i].rkey in tables[5] && tables[5][wrs[i].rkey] == tables[j][wrs[i].rkey]
    ensures ShmRegion(tables, wrs, i) == if wrs[i].rkey in tables[5] then Some(tables[5][wrs[i].rkey]) else None
  {
    SleepsExact(tables, wrs, i);
  }

  /** And on the socket path, which looks once. */
  function SocketRegion(table: map<nat, Mr>, w: Wr): Option<Mr> {
    if OneSided(w) && w.rkey in table then Some(table[w.rkey]) else None
  }

  function ShmRegions(tables: seq<map<nat, Mr>>, wrs: seq<Wr>): (r: seq<Option<Mr>>)
    requires |tables| == 6
    ensures |r| == |wrs| && forall i :: 0 <= i < |wrs| ==> r[i] == ShmRegion(tables, wrs, i)
  {
    seq(|wrs|, i requires 0 <= i < |wrs| => ShmRegion(tables, wrs, i))
  }

  function SocketRegions(table: map<nat, Mr>, wrs: seq<Wr>): (r: seq<Option<Mr>>)
    ensures |r| == |wrs| && forall i :: 0 <= i < |wrs| ==> r[i] == SocketRegion(table, wrs[i])
  {
    seq(|wrs|, i requires 0 <= i < |wrs| => SocketRegion(table, wrs[i]))
  }

  /** A receive has no remote region. */
  function NoRegions(n: nat): (r: seq<Option<Mr>>)
    ensures |r| == n && forall i :: 0 <= i < n ==> r[i] == None
  {
    seq(n, i => None)
  }

  predicate AllKnown(table: map<nat, Mr>, wrs: seq<Wr>) {
    forall i :: 0 <= i < |wrs| && OneSided(wrs[i]) ==> wrs[i].rkey in table
  }

  lemma {:induction false} NoSleeps(tables: seq<map<nat, Mr>>, wrs: seq<Wr>, i: nat)
    requires |tables| == 6 && AllKnown(tables[0], wrs) && i <= |wrs|
    ensures Sleeps(tables, wrs, i) == 0
  {
    if i > 0 {
      NoSleeps(tables, wrs, i - 1);
    }
  }

  // ---- the two paths ----

  /** What the first n entries are charged for. */
  function Amounts(sges: seq<Sge>, n: nat): (r: seq<TB.u64>)
    requires n <= |sges|
    ensures |r| == n && forall k :: 0 <= k < n ==> r[k] == sges[k].length
  {
    seq(n, k requires 0 <= k < n => sges[k].length)
  }

  /** The list that the shared-memory path builds, if the entries suffice. */
  function ShmOutcome(tables: seq<map<nat, Mr>>, wrs: seq<Wr>, sges: seq<Sge>): Option<seq<Wr>>
    requires |tables| == 6
  {
    if Offset(wrs, |wrs|) <= |sges| then Some(Built(wrs, ShmRegions(tables, wrs))) else None
  }

  /** The one that the socket path builds, if moreover it gets past its bucket, whose
      stored time is `time`, with the clock readings `clock`. */
  function SocketOutcome(table: map<nat, Mr>, wrs: seq<Wr>, sges: seq<Sge>, r: TB.Rates, time: TB.u64,
                         clock: seq<TB.u64>): Option<seq<Wr>> {
    var n := Offset(wrs, |wrs|);
    if n <= |sges| && Paced(r, time, Amounts(sges, n), clock).Some? then Some(Built(wrs, SocketRegions(table, wrs)))
    else None
  }

  /** When every key needed is registered, both find the same regions. */
  lemma RegionsAgree(tables: seq<map<nat, Mr>>, wrs: seq<Wr>)
    requires |tables| == 6 && AllKnown(tables[0], wrs)
    ensures ShmRegions(tables, wrs) == SocketRegions(tables[0], wrs)
  {
    forall i | 0 <= i < |wrs|
      ensures ShmRegions(tables, wrs)[i] == SocketRegions(tables[0], wrs)[i]
    {
      NoSleeps(tables, wrs, i);
    }
  }

  /** So both paths build the same list, on every clock that moves on far enough, if
      and only if no entry costs more than a burst. If one does, the socket path
      builds none on any clock. */
  lemma PathsAgree(tables: seq<map<nat, Mr>>, wrs: seq<Wr>, sges: seq<Sge>, r: TB.Rates, time: TB.u64, start: TB.u64)
    requires |tables| == 6 && AllKnown(tables[0], wrs) && Offset(wrs, |wrs|) <= |sges|
    requires time <= start && r.timePerBurst <= start && start + Bursts(r, Offset(wrs, |wrs|)) < TWO64 / 2
    requires forall k :: 0 <= k < Offset(wrs, |wrs|) ==> r.Cost(sges[k].length) < TWO64 / 2
    ensures var amounts := Amounts(sges, Offset(wrs, |wrs|));
      && ((forall clock :: Enough(r, amounts, start, clock) ==>
             SocketOutcome(tables[0], wrs, sges, r, time, clock) == ShmOutcome(tables, wrs, sges)) <==>
          Affordable(r, amounts))
      && (!Affordable(r, amounts) ==> ShmOutcome(tables, wrs, sges).Some? && forall clock ::
            Steady(start, clock) && NoOverflow(r, amounts, clock) ==>
              SocketOutcome(tables[0], wrs, sges, r, time, clock).None?)
  {
    hide Enough, Affordable, Paced, Steady, NoOverflow, Offset, Built;
    RegionsAgree(tables, wrs);
    PacedExact(r, time, Amounts(sges, Offset(wrs, |wrs|)), start);
  }

  const MAX_QP_RATE_LIMIT := 5_000_000_000
  const BURST_PER_QP := 4_000_000

  /** The bucket that a queue pair gets when the environment sets no rate. */
  const DEFAULT_RATES := TB.Rates(5_000_000_000 / MAX_QP_RATE_LIMIT, BURST_PER_QP * (5_000_000_000 / MAX_QP_RATE_LIMIT))

  /** With it a single entry of 4000001 bytes keeps the socket path waiting for ever,
      while the shared-memory path builds its list. */
  lemma LongEntryStuck(tables: seq<map<nat, Mr>>, w: Wr, e: Sge, time: TB.u64, start: TB.u64, clock: seq<TB.u64>)
    requires |tables| == 6 && w.numSge == 1 && e.length == 4_000_001 && time <= start && Steady(start, clock)
    requires forall j :: 0 <= j < |clock| ==> clock[j] < TWO64 / 2
    ensures ShmOutcome(tables, [w], [e]).Some?
    ensures SocketOutcome(tables[0], [w], [e], DEFAULT_RATES, time, clock) == None
  {
    var amounts := Amounts([e], 1);
    assert Offset([w], 1) == Offset([w], 0) + 1;
    assert DEFAULT_RATES.Cost(amounts[0]) == 4_000_001;
    NeverPaced(DEFAULT_RATES, time, amounts, start, clock);
  }

  // ---- the loops ----

  /** Entries before `end` have their base added once, the rest are untouched. */
  predicate SgesDone(lkeys: map<nat, int>, sges: seq<Sge>, sges': seq<Sge>, end: nat) {
    && |sges'| == |sges|
    && forall k :: 0 <= k < |sges| ==> sges'[k] == if k < end then Rebased(lkeys, sges[k]) else sges[k]
  }

  /** Requests before i are relocated, the rest are untouched. */
  predicate WrsDone(wrs: seq<Wr>, wrs': seq<Wr>, mrs: seq<Option<Mr>>, i: nat) {
    && |wrs'| == |wrs| == |mrs|
    && forall j :: 0 <= j < |wrs| ==> wrs'[j] == if j < i then Fixed(wrs, j, mrs[j]) else wrs[j]
  }

  lemma Begin(wrs: seq<Wr>, mrs: seq<Option<Mr>>, lkeys: map<nat, int>, sges: seq<Sge>)
    requires |wrs| == |mrs|
    ensures WrsDone(wrs, wrs, mrs, 0) && Offset(wrs, 0) == 0 && SameBases(lkeys, lkeys)
    ensures SgesDone(lkeys, sges, sges, 0)
  {
  }

  lemma WrsStep(wrs: seq<Wr>, cur: seq<Wr>, mrs: seq<Option<Mr>>, i: nat)
    requires WrsDone(wrs, cur, mrs, i) && i < |wrs|
    ensures cur[i] == wrs[i] && WrsDone(wrs, cur[i := Fixed(wrs, i, mrs[i])], mrs, i + 1)
    ensures Offset(wrs, i + 1) == Offset(wrs, i) + Used(wrs[i]) <= Offset(wrs, |wrs|)
  {
    OffsetMono(wrs, i + 1, |wrs|);
  }

  lemma WrsEnd(wrs: seq<Wr>, cur: seq<Wr>, mrs: seq<Option<Mr>>)
    requires WrsDone(wrs, cur, mrs, |wrs|)
    ensures Relocated(wrs, cur, mrs)
  {
  }

  class Router {
    var lkeyPtr: map<nat, int>

    /** The inner loop: the entries at..at+n get their base added. */
    method FixSges(sge: array<Sge>, at: nat, n: nat, ghost lkeys: map<nat, int>, ghost sges: seq<Sge>)
      requires at + n <= sge.Length && SameBases(lkeys, lkeyPtr) && SgesDone(lkeys, sges, sge[..], at)
      modifies this, sge
      ensures SameBases(lkeys, lkeyPtr) && SgesDone(lkeys, sges, sge[..], at + n)
    {
      var j := 0;
      while j < n
        invariant j <= n && SameBases(lkeys, lkeyPtr) && SgesDone(lkeys, sges, sge[..], at + j)
      {
        var e := sge[at + j];
        lkeyPtr := Touched(lkeyPtr, e.lkey);
        sge[at + j] := e.(addr := W64(lkeyPtr[e.lkey] + e.addr));
        j := j + 1;
      }
    }

    /** The list pointers of request i, whose entries start at `at`. */
    method FixPointers(wr: array<Wr>, i: nat, at: nat)
      requires i < wr.Length
      modifies wr
      ensures wr[..] == old(wr[..])[i := old(wr[i]).(
        next := if i + 1 < wr.Length then Some(i + 1) else None,
        sgList := if old(wr[i]).numSge > 0 then Some(at) else None)]
    {
      if i >= wr.Length - 1 {
        wr[i] := wr[i].(next := None);
      } else {
        wr[i] := wr[i].(next := Some(i + 1));
      }
      if wr[i].numSge > 0 {
        wr[i] := wr[i].(sgList := Some(at));
      } else {
        wr[i] := wr[i].(sgList := None);
      }
    }

    /** The pointer fixing that ends every iteration: returns where the next
        request's entries start. */
    method FixLists(wr: array<Wr>, sge: array<Sge>, i: nat, at: nat, ghost lkeys: map<nat, int>,
                    ghost sges: seq<Sge>) returns (at': nat)
      requires i < wr.Length && at + Used(wr[i]) <= sge.Length
      requires SameBases(lkeys, lkeyPtr) && SgesDone(lkeys, sges, sge[..], at)
      modifies this, wr, sge
      ensures at' == at + old(Used(wr[i])) && SameBases(lkeys, lkeyPtr) && SgesDone(lkeys, sges, sge[..], at')
      ensures wr[..] == old(wr[..])[i := old(wr[i]).(
        next := if i + 1 < wr.Length then Some(i + 1) else None,
        sgList := if old(wr[i]).numSge > 0 then Some(at) else None)]
    {
      FixPointers(wr, i, at);
      at' := at;
      if wr[i].numSge > 0 {
        FixSges(sge, at, wr[i].numSge, lkeys, sges);
        at' := at + wr[i].numSge;
      }
    }

    /** The loop at the bucket: `ok` when consume has succeeded before the clock
        readings run out. */
    method WaitFor(tb: TB.Bucket, tokens: TB.u64, clock: seq<TB.u64>) returns (ok: bool, rest: seq<TB.u64>)
      modifies tb
      ensures (if ok then Some((tb.time, rest)) else None) == Waited(tb.rates, old(tb.time), tokens, clock)
    {
      ok, rest := false, clock;
      while rest != [] && !ok
        invariant (if ok then Some((tb.time, rest)) else Waited(tb.rates, tb.time, tokens, rest))
               == Waited(tb.rates, old(tb.time), tokens, clock)
        decreases |rest|
      {
        TB.NoRetry(tb.rates, tb.time, tokens, rest[0]);
        ok := tb.Consume(tokens, rest[0], []);
        rest := rest[1..];
      }
    }

    /** The inner loop of the socket path: each entry waits at the bucket first. */
    method PaceSges(sge: array<Sge>, at: nat, n: nat, tb: TB.Bucket, clock: seq<TB.u64>, ghost lkeys: map<nat, int>,
                    ghost sges: seq<Sge>, ghost time: TB.u64, ghost readings: seq<TB.u64>)
        returns (ok: bool, rest: seq<TB.u64>)
      requires at + n <= sge.Length == |sges| && SameBases(lkeys, lkeyPtr) && SgesDone(lkeys, sges, sge[..], at)
      requires Paced(tb.rates, time, Amounts(sges, at), readings) == Some((tb.time, clock))
      modifies this, sge, tb
      ensures ok ==> SameBases(lkeys, lkeyPtr) && SgesDone(lkeys, sges, sge[..], at + n)
      ensures ok ==> Paced(tb.rates, time, Amounts(sges, at + n), readings) == Some((tb.time, rest))
      ensures !ok ==> exists k :: 0 <= k <= at + n && Paced(tb.rates, time, Amounts(sges, k), readings).None?
    {
      hide Waited, Paced;
      rest := clock;
      var j := 0;
      while j < n
        invariant j <= n && SameBases(lkeys, lkeyPtr) && SgesDone(lkeys, sges, sge[..], at + j)
        invariant Paced(tb.rates, time, Amounts(sges, at + j), readings) == Some((tb.time, rest))
      {
        var e := sge[at + j];
        PacedNext(tb.rates, time, sges, at + j, readings);
        ok, rest := WaitFor(tb, e.length, rest);
        if !ok {
          return;
        }
        lkeyPtr := Touched(lkeyPtr, e.lkey);
        sge[at + j] := e.(addr := W64(lkeyPtr[e.lkey] + e.addr));
        j := j + 1;
      }
      ok := true;
    }

    /** IBV_POST_SEND over the socket. `ok` says that the loop came to its end: the
        requests use no more entries than came with them, which the code takes for
        granted, and every entry got past the bucket. */
    method SendSocket(wr: array<Wr>, sge: array<Sge>, table: map<nat, Mr>, tb: TB.Bucket, clock: seq<TB.u64>)
        returns (ok: bool)
      modifies this, wr, sge, tb
      ensures (if ok then Some(wr[..]) else None)
           == SocketOutcome(table, old(wr[..]), old(sge[..]), tb.rates, old(tb.time), clock)
      ensures ok ==> SgesDone(old(lkeyPtr), old(sge[..]), sge[..], Offset(old(wr[..]), wr.Length))
      ensures ok ==> SameBases(old(lkeyPtr), lkeyPtr)
      ensures ok ==> EntriesPlaced(old(lkeyPtr), old(sge[..]), sge[..], Offset(old(wr[..]), wr.Length))
      ensures ok ==> forall i :: 0 <= i < wr.Length ==> SamePlace(old(wr[i]), wr[i],
        if old(wr[i]).rkey in table then Some(table[old(wr[i]).rkey]) else None)
    {
      hide W64, SgesDone, SameBases, WrsDone, Offset, Paced, Built, SamePlace, EntriesPlaced, Relocated;
      ghost var wrs, mrs, sges := wr[..], SocketRegions(table, wr[..]), sge[..];
      Begin(wrs, mrs, lkeyPtr, sge[..]);
      PacedNone(tb.rates, tb.time, sges, clock);
      var i, at, rest := 0, 0, clock;
      while i < wr.Length
        invariant i <= wr.Length && WrsDone(wrs, wr[..], mrs, i) && at == Offset(wrs, i) <= sge.Length
        invariant SameBases(old(lkeyPtr), lkeyPtr) && SgesDone(old(lkeyPtr), sges, sge[..], at)
        invariant Paced(tb.rates, old(tb.time), Amounts(sges, at), clock) == Some((tb.time, rest))
      {
        WrsStep(wrs, wr[..], mrs, i);
        ghost var cur := wr[..];
        if wr[i].numSge > sge.Length - at {
          return false;
        }
        if wr[i].opcode != TwoSided && wr[i].rkey in table {
          var mr := table[wr[i].rkey];
          wr[i] := wr[i].(remoteAddr := W64(mr.shm + wr[i].remoteAddr - mr.mr));
        }
        FixPointers(wr, i, at);
        if wr[i].numSge > 0 {
          ok, rest := PaceSges(sge, at, wr[i].numSge, tb, rest, old(lkeyPtr), sges, old(tb.time), clock);
          if !ok {
            StuckBefore(tb.rates, old(tb.time), sges, clock, at + wr[i].numSge, Offset(wrs, |wrs|));
            return;
          }
          at := at + wr[i].numSge;
        }
        assert wr[..] == cur[i := Fixed(wrs, i, mrs[i])];
        i := i + 1;
      }
      WrsEnd(wrs, wr[..], mrs);
      BuiltOnly(wrs, wr[..], mrs);
      DonePlaces(old(lkeyPtr), sges, sge[..], at);
      SocketPlaces(table, wrs, wr[..]);
      ok := true;
    }

    /** The lookup loop of the shared-memory path. */
    method LookUp(tables: seq<map<nat, Mr>>, rkey: nat, count: nat) returns (mr: Option<Mr>, count': nat)
      requires |tables| == 6 && count <= 5
      ensures (mr, count') == Resolve(tables, rkey, count)
    {
      count' := count;
      while true
        invariant count <= count' <= 5 && Resolve(tables, rkey, count') == Resolve(tables, rkey, count)
        decreases 5 - count'
      {
        if rkey !in tables[count'] {
          if count' > 4 {
            return None, count';
          }
        } else {
          return Some(tables[count'][rkey]), count';
        }
        count' := count' + 1;
      }
    }

    /** IBV_POST_SEND over shared memory. */
    method SendShm(wr: array<Wr>, sge: array<Sge>, tables: seq<map<nat, Mr>>) returns (ok: bool)
      requires |tables| == 6
      modifies this, wr, sge
      ensures (if ok then Some(wr[..]) else None) == ShmOutcome(tables, old(wr[..]), old(sge[..]))
      ensures ok ==> SameBases(old(lkeyPtr), lkeyPtr)
      ensures ok ==> SgesDone(old(lkeyPtr), old(sge[..]), sge[..], Offset(old(wr[..]), wr.Length))
      ensures ok ==> EntriesPlaced(old(lkeyPtr), old(sge[..]), sge[..], Offset(old(wr[..]), wr.Length))
      ensures ok ==> forall i :: 0 <= i < wr.Length ==>
        SamePlace(old(wr[i]), wr[i], ShmRegion(tables, old(wr[..]), i))
    {
      hide W64, SgesDone, SameBases, WrsDone, Offset, Resolve, Built, SamePlace, EntriesPlaced, Relocated;
      ghost var wrs, mrs := wr[..], ShmRegions(tables, wr[..]);
      Begin(wrs, mrs, lkeyPtr, sge[..]);
      var i, at, count := 0, 0, 0;
      while i < wr.Length
        invariant i <= wr.Length && WrsDone(wrs, wr[..], mrs, i) && at == Offset(wrs, i) <= sge.Length
        invariant count == Sleeps(tables, wrs, i)
        invariant SameBases(old(lkeyPtr), lkeyPtr) && SgesDone(old(lkeyPtr), old(sge[..]), sge[..], at)
      {
        WrsStep(wrs, wr[..], mrs, i);
        ghost var cur := wr[..];
        if wr[i].numSge > sge.Length - at {
          return false;
        }
        if wr[i].opcode != TwoSided {
          var mr: Option<Mr>;
          mr, count := LookUp(tables, wr[i].rkey, count);
          if mr.Some? {
            wr[i] := wr[i].(remoteAddr := W64(mr.value.shm + wr[i].remoteAddr - mr.value.mr));
          }
        }
        at := FixLists(wr, sge, i, at, old(lkeyPtr), old(sge[..]));
        assert wr[..] == cur[i := Fixed(wrs, i, mrs[i])];
        i := i + 1;
      }
      WrsEnd(wrs, wr[..], mrs);
      BuiltOnly(wrs, wr[..], mrs);
      DonePlaces(old(lkeyPtr), old(sge[..]), sge[..], at);
      ShmPlaces(tables, wrs, wr[..]);
      ok := true;
    }

    /** IBV_POST_RECV, the same over both. */
    method Recv(wr: array<Wr>, sge: array<Sge>) returns (ok: bool)
      modifies this, wr, sge
      ensures ok <==> Offset(old(wr[..]), wr.Length) <= sge.Length
      ensures ok ==> Relocated(old(wr[..]), wr[..], NoRegions(wr.Length)) && SameBases(old(lkeyPtr), lkeyPtr)
      ensures ok ==> SgesDone(old(lkeyPtr), old(sge[..]), sge[..], Offset(old(wr[..]), wr.Length))
      ensures ok ==> EntriesPlaced(old(lkeyPtr), old(sge[..]), sge[..], Offset(old(wr[..]), wr.Length))
    {
      hide W64, SgesDone, SameBases, WrsDone, Relocated, Offset, EntriesPlaced;
      ghost var wrs, mrs := wr[..], NoRegions(wr.Length);
      Begin(wrs, mrs, lkeyPtr, sge[..]);
      var i, at := 0, 0;
      while i < wr.Length
        invariant i <= wr.Length && WrsDone(wrs, wr[..], mrs, i) && at == Offset(wrs, i) <= sge.Length
        invariant SameBases(old(lkeyPtr), lkeyPtr) && SgesDone(old(lkeyPtr), old(sge[..]), sge[..], at)
      {
        WrsStep(wrs, wr[..], mrs, i);
        ghost var cur := wr[..];
        if wr[i].numSge > sge.Length - at {
          return false;
        }
        at := FixLists(wr, sge, i, at, old(lkeyPtr), old(sge[..]));
        assert wr[..] == cur[i := Fixed(wrs, i, mrs[i])];
        i := i + 1;
      }
      WrsEnd(wrs, wr[..], mrs);
      DonePlaces(old(lkeyPtr), old(sge[..]), sge[..], at);
      ok := true;
    }
  }

  lemma ShmPlaces(tables: seq<map<nat, Mr>>, wrs: seq<Wr>, wrs': seq<Wr>)
    requires |tables| == 6 && Relocated(wrs, wrs', ShmRegions(tables, wrs))
    ensures forall i :: 0 <= i < |wrs| ==> SamePlace(wrs[i], wrs'[i], ShmRegion(tables, wrs, i))
  {
    hide SamePlace;
    forall i | 0 <= i < |wrs|
      ensures SamePlace(wrs[i], wrs'[i], ShmRegion(tables, wrs, i))
    {
      RelocatedPlaces(wrs, wrs', ShmRegions(tables, wrs), i);
    }
  }

  lemma SocketPlaces(table: map<nat, Mr>, wrs: seq<Wr>, wrs': seq<Wr>)
    requires Relocated(wrs, wrs', SocketRegions(table, wrs))
    ensures forall i :: 0 <= i < |wrs| ==>
      SamePlace(wrs[i], wrs'[i], if wrs[i].rkey in table then Some(table[wrs[i].rkey]) else None)
  {
    forall i | 0 <= i < |wrs|
      ensures SamePlace(wrs[i], wrs'[i], if wrs[i].rkey in table then Some(table[wrs[i].rkey]) else None)
    {
      RelocatedPlaces(wrs, wrs', SocketRegions(table, wrs), i);
    }
  }

  lemma PacedNone(r: TB.Rates, time: TB.u64, sges: seq<Sge>, clock: seq<TB.u64>)
    ensures Paced(r, time, Amounts(sges, 0), clock) == Some((time, clock))
  {
  }

  /** One entry more waits where the ones before it left the bucket. */
  lemma PacedNext(r: TB.Rates, time: TB.u64, sges: seq<Sge>, k: nat, clock: seq<TB.u64>)
    requires k < |sges| && Paced(r, time, Amounts(sges, k), clock).Some?
    ensures var (time', rest) := Paced(r, time, Amounts(sges, k), clock).value;
      Paced(r, time, Amounts(sges, k + 1), clock) == Waited(r, time', sges[k].length, rest)
  {
    assert Amounts(sges, k + 1) == Amounts(sges, k) + [sges[k].length];
    PacedAppend(r, time, Amounts(sges, k), [sges[k].length], clock);
    var (time', rest) := Paced(r, time, Amounts(sges, k), clock).value;
    assert [sges[k].length][1..] == [];
  }

  lemma StuckBefore(r: TB.Rates, time: TB.u64, sges: seq<Sge>, clock: seq<TB.u64>, most: nat, n: nat)
    requires most <= n && most <= |sges|
    requires exists k :: 0 <= k <= most && Paced(r, time, Amounts(sges, k), clock).None?
    ensures n <= |sges| ==> Paced(r, time, Amounts(sges, n), clock).None?
  {
    if n <= |sges| {
      var k :| 0 <= k <= most && Paced(r, time, Amounts(sges, k), clock).None?;
      assert Amounts(sges, n) == Amounts(sges, k) + Amounts(sges, n)[k..];
      PacedAppend(r, time, Amounts(sges, k), Amounts(sges, n)[k..], clock);
    }
  }
}
