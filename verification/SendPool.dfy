/** The send pool of a datagram rsocket as it lies in memory: sq_size slots of
    RS_SNDLOWAT bytes one behind the other, a free slot starting with the address of
    the next free one, and a slot in flight starting with its message. */
module SendPool {
  import opened Common
  import opened Wire
  import opened FreeLists

  /** A slot that holds the number of the next free slot, -1 at the end of the list,
      or a message. */
  type Slot = Cell<seq<byte>>

  const PTR_SIZE := 8

  // ---- addresses ----

  function Power(n: nat): nat {
    if n == 0 then 1 else 256 * Power(n - 1)
  }

  /** An address as the processor stores it, lowest byte first. */
  function Encoded(v: nat, n: nat): (bytes: seq<byte>)
    ensures |bytes| == n
  {
    if n == 0 then [] else [v % 256] + Encoded(v / 256, n - 1)
  }

  function Decoded(bytes: seq<byte>): nat {
    if bytes == [] then 0 else bytes[0] + 256 * Decoded(bytes[1..])
  }

  lemma {:induction false} DecodesBack(v: nat, n: nat)
    requires v < Power(n)
    ensures Decoded(Encoded(v, n)) == v
    decreases n
  {
    if n > 0 {
      DecodesBack(v / 256, n - 1);
      assert Encoded(v, n)[1..] == Encoded(v / 256, n - 1);
    }
  }

  lemma AddressFits(v: nat)
    requires v < TWO64
    ensures Decoded(Encoded(v, PTR_SIZE)) == v
  {
    assert Power(4) == 0x1_0000_0000;
    assert Power(8) == TWO64;
    DecodesBack(v, PTR_SIZE);
  }

  /** The address of slot i of a pool at `base`, NULL for none. */
  function Address(base: nat, i: int): nat {
    if i < 0 then 0 else base + i * SNDLOWAT
  }

  // ---- what memory holds ----

  /** The address at the start of a slot. */
  function Load(mem: seq<byte>, at: nat): nat
    requires at + PTR_SIZE <= |mem|
  {
    Decoded(mem[at..at + PTR_SIZE])
  }

  /** memcpy of `data` to `at`, as far as it concerns this memory. */
  function Copied(mem: seq<byte>, at: nat, data: seq<byte>): (r: seq<byte>)
    ensures |r| == |mem|
    ensures forall k :: 0 <= k < |mem| ==> r[k] == if at <= k < at + |data| then data[k - at] else mem[k]
  {
    seq(|mem|, k requires 0 <= k < |mem| => if at <= k < at + |data| then data[k - at] else mem[k])
  }

  predicate SlotHolds(mem: seq<byte>, base: nat, i: nat, s: Slot) {
    var at := i * SNDLOWAT;
    match s
    case Free(next) => at + PTR_SIZE <= |mem| && Load(mem, at) == Address(base, next)
    case Used(m) => at + |m| <= |mem| && mem[at..at + |m|] == m
  }

  /** Memory holds the links of the free slots and the messages of the others. */
  ghost predicate Holds(mem: seq<byte>, base: nat, slots: seq<Slot>) {
    |mem| == |slots| * SNDLOWAT && forall i :: 0 <= i < |slots| ==> SlotHolds(mem, base, i, slots[i])
  }

  /** Every message has a header and stays within its slot. */
  predicate Within(slots: seq<Slot>) {
    forall i :: 0 <= i < |slots| && slots[i].Used? ==> 1 <= |slots[i].value| <= SNDLOWAT
  }

  /** Writing within one slot leaves the others as they are. */
  lemma OthersHold(mem: seq<byte>, base: nat, i: nat, data: seq<byte>, j: nat, s: Slot)
    requires |data| <= SNDLOWAT && j != i && SlotHolds(mem, base, j, s) && (s.Used? ==> |s.value| <= SNDLOWAT)
    ensures SlotHolds(Copied(mem, i * SNDLOWAT, data), base, j, s)
  {
    var mem', at := Copied(mem, i * SNDLOWAT, data), j * SNDLOWAT;
    match s
    case Free(_) =>
      assert mem'[at..at + PTR_SIZE] == mem[at..at + PTR_SIZE];
    case Used(m) =>
      assert mem'[at..at + |m|] == mem[at..at + |m|];
  }

  /** Slot i is written: all slots hold what they should. */
  lemma WriteHolds(mem: seq<byte>, base: nat, slots: seq<Slot>, i: nat, data: seq<byte>, s: Slot)
    requires Holds(mem, base, slots) && Within(slots) && i < |slots| && |data| <= SNDLOWAT
    requires SlotHolds(Copied(mem, i * SNDLOWAT, data), base, i, s)
    ensures Holds(Copied(mem, i * SNDLOWAT, data), base, slots[i := s])
  {
    var mem', slots' := Copied(mem, i * SNDLOWAT, data), slots[i := s];
    forall j | 0 <= j < |slots'|
      ensures SlotHolds(mem', base, j, slots'[j])
    {
      if j != i {
        OthersHold(mem, base, i, data, j, slots[j]);
      }
    }
  }

  lemma MessageHolds(mem: seq<byte>, base: nat, i: nat, m: seq<byte>)
    requires i * SNDLOWAT + |m| <= |mem|
    ensures SlotHolds(Copied(mem, i * SNDLOWAT, m), base, i, Used(m))
  {
  }

  lemma LinkHolds(mem: seq<byte>, base: nat, i: nat, next: int)
    requires i * SNDLOWAT + PTR_SIZE <= |mem| && Address(base, next) < TWO64
    ensures SlotHolds(Copied(mem, i * SNDLOWAT, Encoded(Address(base, next), PTR_SIZE)), base, i, Free(next))
  {
    var v, at := Encoded(Address(base, next), PTR_SIZE), i * SNDLOWAT;
    AddressFits(Address(base, next));
    assert Copied(mem, at, v)[at..at + PTR_SIZE] == v;
  }

  // ---- how long a message may be ----

  /** What dsend does to slot i, and what the slots should then hold. */
  ghost predicate CopyHolds(mem: seq<byte>, base: nat, slots: seq<Slot>, i: nat, m: seq<byte>)
    requires i < |slots|
  {
    Holds(Copied(mem, i * SNDLOWAT, m), base, slots[i := Used(m)])
  }

  /** A message that fits its slot leaves every other slot, and with it the free list
      and all messages in flight, as they are. */
  lemma ShortKeeps(mem: seq<byte>, base: nat, slots: seq<Slot>, i: nat, m: seq<byte>)
    requires Holds(mem, base, slots) && Within(slots) && i < |slots| && |m| <= SNDLOWAT
    ensures CopyHolds(mem, base, slots, i, m)
  {
    MessageHolds(mem, base, i, m);
    WriteHolds(mem, base, slots, i, m, Used(m));
  }

  /** The lowest byte of an address tells addresses apart. */
  lemma LowByte(bytes: seq<byte>)
    requires bytes != []
    ensures Decoded(bytes) % 256 == bytes[0]
  {
  }

  /** A first byte other than the one it holds breaks a slot. */
  lemma FirstByte(mem: seq<byte>, mem': seq<byte>, base: nat, j: nat, s: Slot)
    requires SlotHolds(mem, base, j, s) && (s.Used? ==> s.value != []) && |mem'| == |mem|
    requires j * SNDLOWAT < |mem| && mem'[j * SNDLOWAT] != mem[j * SNDLOWAT]
    ensures !SlotHolds(mem', base, j, s)
  {
    var at := j * SNDLOWAT;
    match s
    case Free(_) =>
      LowByte(mem[at..at + PTR_SIZE]);
      LowByte(mem'[at..at + PTR_SIZE]);
    case Used(m) =>
      if at + |m| <= |mem'| {
        assert mem'[at..at + |m|][0] != mem[at..at + |m|][0];
      }
  }

  /** For a message longer than that, some contents destroy the next slot: its link if
      it is free, its message if it is in flight. Behind the last slot there is none. */
  lemma LongBreaks(mem: seq<byte>, base: nat, slots: seq<Slot>, i: nat, hdr: seq<byte>, len: nat)
      returns (buf: seq<byte>)
    requires Holds(mem, base, slots) && Within(slots) && i < |slots|
    requires 1 <= |hdr| <= SNDLOWAT < |hdr| + len
    ensures |buf| == len && !CopyHolds(mem, base, slots, i, hdr + buf)
  {
    var at := (i + 1) * SNDLOWAT;
    if i + 1 == |slots| {
      buf := seq(len, k => 0);
      assert !SlotHolds(Copied(mem, i * SNDLOWAT, hdr + buf), base, i, slots[i := Used(hdr + buf)][i]);
    } else {
      var other := if mem[at] == 0 then 1 else 0;
      buf := seq(len, k => other);
      var mem', slots' := Copied(mem, i * SNDLOWAT, hdr + buf), slots[i := Used(hdr + buf)];
      assert (hdr + buf)[SNDLOWAT] == other;
      FirstByte(mem, mem', base, i + 1, slots[i + 1]);
      assert !SlotHolds(mem', base, i + 1, slots'[i + 1]);
    }
  }

  /** dsend leaves the free list and every message in flight intact, whatever the
      datagram contains, exactly when header and datagram together fit a slot. */
  lemma FitExact(mem: seq<byte>, base: nat, slots: seq<Slot>, i: nat, hdr: seq<byte>, len: nat)
    requires Holds(mem, base, slots) && Within(slots) && i < |slots| && 1 <= |hdr| <= SNDLOWAT
    ensures (forall buf: seq<byte> :: |buf| == len ==> CopyHolds(mem, base, slots, i, hdr + buf)) <==>
      |hdr| + len <= SNDLOWAT
  {
    if |hdr| + len <= SNDLOWAT {
      forall buf: seq<byte> | |buf| == len
        ensures CopyHolds(mem, base, slots, i, hdr + buf)
      {
        ShortKeeps(mem, base, slots, i, hdr + buf);
      }
    } else {
      var buf := LongBreaks(mem, base, slots, i, hdr, len);
    }
  }

  // ---- the list at the start ----

  function AllSlots(n: nat): (slots: seq<Slot>)
    ensures |slots| == n && forall j :: 0 <= j < n ==> slots[j] == Free(if j + 1 < n then j + 1 else -1)
  {
    seq(n, j => Free(if j + 1 < n then j + 1 else -1))
  }

  /** With an IPv4 header of 8 bytes a datagram of 2041 bytes is too long. Sent from a
      new pool of two slots, with a last byte of 1, it leaves the second slot pointing
      to address 1 where the list should end. */
  lemma LongDatagram(mem: seq<byte>, base: nat, hdr: seq<byte>, buf: seq<byte>)
    requires Holds(mem, base, AllSlots(2)) && |hdr| == 8 && |buf| == 2041 && buf[2040] == 1
    ensures Load(Copied(mem, 0, hdr + buf), SNDLOWAT) == 1 && !CopyHolds(mem, base, AllSlots(2), 0, hdr + buf)
  {
    var mem', link := Copied(mem, 0, hdr + buf), mem[SNDLOWAT..SNDLOWAT + PTR_SIZE];
    assert SlotHolds(mem, base, 1, AllSlots(2)[1]);
    assert (hdr + buf)[SNDLOWAT] == 1;
    assert mem'[SNDLOWAT..SNDLOWAT + PTR_SIZE][1..] == link[1..];
    assert !SlotHolds(mem', base, 1, AllSlots(2)[0 := Used(hdr + buf)][1]);
  }
}
