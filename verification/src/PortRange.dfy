/** Port selection of the SNAT engine: keeping a port that lies in range, or scaling a random one into it. */
module PortRange {
  import opened Arith
  import opened Net

  /** Number of ports in the closed range, as the 32-bit subtraction computes it. */
  function Width(start: Port, end: Port): U32 {
    (end - start + 1) % U32_SIZE
  }

  /** The range offset a 32-bit product stands for, added to the start with 16-bit wrap-around. */
  function Offset(start: Port, m: nat): Port {
    (start + m % U32_SIZE / 0x1_0000) % 0x1_0000
  }

  /** __snat_clamp_port_range, with the wrap-around of its intermediates. */
  function Clamp(start: Port, end: Port, val: U16): Port {
    Offset(start, val * Width(start, end))
  }

  /** __snat_try_keep_port; `rand` is the low half of get_prandom_u32(). */
  function TryKeep(start: Port, end: Port, val: Port, rand: U16): Port {
    if start <= val <= end then val else Clamp(start, end, rand)
  }

  /** The product never leaves 32 bits, so the result is the exact scaled value and stays in the range. */
  lemma ClampInRange(start: Port, end: Port, val: U16)
    requires start <= end
    ensures val * (end - start + 1) < U32_SIZE
    ensures Clamp(start, end, val) == start + val * (end - start + 1) / 0x1_0000
    ensures start <= Clamp(start, end, val) <= end
  {
    hide Offset;
    var n := end - start + 1;
    assert Width(start, end) == n;
    MulLe(val, n, 0xFFFF, n);
    PlainOffset(start, n, val * n);
  }

  lemma PlainOffset(start: Port, n: nat, m: nat)
    requires 0 < n && start + n <= 0x1_0000 && m <= 0xFFFF * n
    ensures m < U32_SIZE && m / 0x1_0000 < n
    ensures Offset(start, m) == start + m / 0x1_0000
  {
  }

  /** First value whose scaled image reaches offset `q` in a range of `n` ports. */
  function FirstFor(q: nat, n: nat): nat
    requires n > 0
  {
    CeilOf(q * 0x1_0000, n)
  }

  /** The values that scale to one offset are exactly one half-open interval. */
  lemma ScaleInterval(q: nat, n: nat, v: nat)
    requires n > 0
    ensures v * n / 0x1_0000 == q <==> FirstFor(q, n) <= v < FirstFor(q + 1, n)
  {
    CeilDiv(q * 0x1_0000, n, v);
    CeilDiv((q + 1) * 0x1_0000, n, v);
  }

  ghost function Preimages(start: Port, end: Port, p: Port): set<int> {
    set v: int | 0 <= v < 0x1_0000 && Clamp(start, end, v) == p
  }

  lemma {:induction false} IntervalSize(s: set<int>, lo: int, hi: int)
    requires lo <= hi
    requires forall v :: v in s <==> lo <= v < hi
    ensures |s| == hi - lo
    decreases hi - lo
  {
    if lo == hi {
      assert forall v :: v !in s;
      assert s == {};
    } else {
      IntervalSize(s - {hi - 1}, lo, hi - 1);
      assert s == (s - {hi - 1}) + {hi - 1};
    }
  }

  lemma PreimageInterval(start: Port, end: Port, p: Port, v: U16)
    requires start <= p <= end
    ensures var n, q := end - start + 1, p - start;
            Clamp(start, end, v) == p <==> FirstFor(q, n) <= v < FirstFor(q + 1, n)
  {
    ClampInRange(start, end, v);
    ScaleInterval(p - start, end - start + 1, v);
  }

  lemma LastFits(q: nat, n: nat)
    requires q < n
    ensures FirstFor(q + 1, n) <= 0x1_0000
  {
    MulLe(q + 1, 0x1_0000, n, 0x1_0000);
    CeilDiv((q + 1) * 0x1_0000, n, 0x1_0000);
  }

  /** Consecutive offsets start between floor and ceiling of 65536/n values apart. */
  lemma FirstGap(q: nat, n: nat)
    requires n > 0
    ensures 0x1_0000 / n <= FirstFor(q + 1, n) - FirstFor(q, n) <= CeilOf(0x1_0000, n)
  {
    var a := q * 0x1_0000;
    assert FirstFor(q, n) == CeilOf(a, n);
    assert FirstFor(q + 1, n) == CeilOf(a + 0x1_0000, n);
    hide *;
    CeilGap(a, 0x1_0000, n);
  }

  /** The documented "slight bias": every port of the range is produced by between floor and ceiling of
      65536/n of the 65536 random values, in particular by at least one. */
  lemma ClampBias(start: Port, end: Port, p: Port)
    requires start <= p <= end
    ensures var n := end - start + 1;
            0 < 0x1_0000 / n <= |Preimages(start, end, p)| <= CeilOf(0x1_0000, n)
  {
    hide Clamp, FirstFor, CeilOf;
    var n, q := end - start + 1, p - start;
    var lo, hi := FirstFor(q, n), FirstFor(q + 1, n);
    LastFits(q, n);
    FirstGap(q, n);
    forall v: int | 0 <= v < 0x1_0000
      ensures v in Preimages(start, end, p) <==> lo <= v < hi
    {
      PreimageInterval(start, end, p, v);
    }
    IntervalSize(Preimages(start, end, p), lo, hi);
  }
}
