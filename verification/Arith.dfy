/** The few facts about division by a variable that the stream offsets need. */
module Arith {

  lemma PosMul(d: int, n: nat)
    requires d >= 1
    ensures d * n >= n
  {
    var e := d - 1;
    assert d * n == e * n + n;
  }

  /** q*n + r = q'*n + r' with both remainders below n forces q <= q'. */
  lemma QuotientLe(n: nat, q: int, r: nat, q': int, r': nat)
    requires r < n && r' < n && q * n + r == q' * n + r'
    ensures q <= q'
  {
    var d := q - q';
    assert d * n == r' - r;
    if d >= 1 {
      PosMul(d, n);
    }
  }

  /** x = q*n + r with 0 <= r < n determines q and r. */
  lemma DivModUnique(x: nat, n: nat, q: nat, r: nat)
    requires n > 0 && r < n && x == q * n + r
    ensures x / n == q && x % n == r
  {
    assert x == (x / n) * n + x % n;
    QuotientLe(n, q, r, x / n, x % n);
    QuotientLe(n, x / n, x % n, q, r);
  }

  /** The byte of an n-byte ring that stream position x falls on. */
  function RingAt(n: nat, x: nat): (r: nat)
    requires n > 0
    ensures r < n
  {
    if x < n then x else RingAt(n, x - n)
  }

  lemma {:induction false} RingAtIsMod(n: nat, x: nat)
    requires n > 0
    ensures RingAt(n, x) == x % n
    decreases x
  {
    if x < n {
      DivModUnique(x, n, 0, x);
    } else {
      RingAtIsMod(n, x - n);
      var y := x - n;
      assert y == (y / n) * n + y % n;
      assert x == (y / n + 1) * n + y % n;
      DivModUnique(x, n, y / n + 1, y % n);
    }
  }

  lemma {:induction false} AtStep(x: nat, n: nat, k: nat)
    requires n > 0 && RingAt(n, x) + k < n
    ensures RingAt(n, x + k) == RingAt(n, x) + k
    decreases x
  {
    if x >= n {
      AtStep(x - n, n, k);
    }
  }

  lemma {:induction false} AtWrap(x: nat, n: nat, k: nat)
    requires n > 0 && n <= RingAt(n, x) + k < 2 * n
    ensures RingAt(n, x + k) == RingAt(n, x) + k - n
    decreases x
  {
    if x >= n {
      AtWrap(x - n, n, k);
    }
  }

  /** Two positions less than n apart fall on different bytes of an n-byte ring. */
  lemma AtApart(x: nat, y: nat, n: nat)
    requires n > 0 && x < y < x + n
    ensures RingAt(n, x) != RingAt(n, y)
  {
    var k := y - x;
    if RingAt(n, x) + k < n {
      AtStep(x, n, k);
    } else {
      AtWrap(x, n, k);
    }
  }

  /** The length of k halves. */
  function Span(k: nat, half: nat): nat {
    if k == 0 then 0 else Span(k - 1, half) + half
  }

  /** The slot of the k-th of things that alternate between two slots. */
  function Slot(k: nat): (s: nat)
    ensures s < 2
  {
    if k == 0 then 0 else 1 - Slot(k - 1)
  }

  lemma {:induction false} SlotIsParity(k: nat)
    ensures Slot(k) == k % 2
  {
    if k > 0 {
      SlotIsParity(k - 1);
    }
  }

  /** Where half k starts in a ring of two halves. */
  function HalfAt(k: nat, half: nat): nat {
    if Slot(k) == 0 then 0 else half
  }

  /** n modulo 2^16, by counting down. */
  function Low16(n: nat): (r: int)
    ensures 0 <= r < 0x1_0000
  {
    if n < 0x1_0000 then n else Low16(n - 0x1_0000)
  }

  lemma {:induction false} Low16IsMod(n: nat)
    ensures Low16(n) == n % 0x1_0000
  {
    if n >= 0x1_0000 {
      Low16IsMod(n - 0x1_0000);
    }
  }

  lemma {:induction false} SpanIsProduct(k: nat, half: nat)
    ensures Span(k, half) == k * half
  {
    if k > 0 {
      SpanIsProduct(k - 1, half);
      assert k * half == (k - 1) * half + half;
    }
  }

  lemma {:induction false} SpanMono(j: nat, k: nat, half: nat)
    requires j <= k
    ensures Span(j, half) <= Span(k, half)
    decreases k
  {
    if j < k {
      SpanMono(j, k - 1, half);
    }
  }

  /** The half position x lies in. */
  lemma {:induction false} HalfOf(x: nat, half: nat) returns (c: nat)
    requires half > 0
    ensures Span(c, half) <= x < Span(c, half) + half
    decreases x
  {
    if x < half {
      c := 0;
    } else {
      c := HalfOf(x - half, half);
      c := c + 1;
    }
  }

  /** Where position x lies in one half and in a ring of two, given its half. */
  lemma {:induction false} HalfMod(x: nat, half: nat, c: nat)
    requires half > 0 && Span(c, half) <= x < Span(c, half) + half
    ensures RingAt(half, x) == x - Span(c, half)
    ensures RingAt(2 * half, x) == HalfAt(c, half) + (x - Span(c, half))
    decreases c
  {
    if c == 1 {
      assert Span(1, half) == half && Slot(1) == 1;
    } else if c >= 2 {
      assert Span(c, half) == Span(c - 2, half) + 2 * half && Slot(c) == Slot(c - 2);
      HalfMod(x - 2 * half, half, c - 2);
    }
  }
}
