/** One's-complement checksum arithmetic (RFC 1071) and its incremental update (section 3 of RFC 1624).

    Words are 16-bit values in network byte order. A checksummed region is valid when its words, checksum
    included, add up to a non-zero multiple of 0xFFFF: the folded sum is then 0xFFFF. */
module Checksum {
  import opened Net

  const M: nat := 0xFFFF

  ghost predicate Cong(a: int, b: int) {
    (a - b) % M == 0
  }

  function Not32(x: U32): U32 {
    U32_SIZE - 1 - x
  }

  /** csum_add: 32-bit addition with end-around carry. */
  function Add(csum: U32, addend: U32): (r: U32)
    ensures Cong(r, csum + addend)
    ensures csum + addend > 0 ==> r > 0
  {
    var s := (csum + addend) % U32_SIZE;
    if s < addend then s + 1 else s
  }

  /** csum_fold: two rounds of folding the upper half into the lower one, then complement. */
  function Fold(csum: U32): (r: U16)
    ensures csum > 0 ==> r < 0xFFFF && Cong(r + csum, 0)
  {
    var once := csum % 0x1_0000 + csum / 0x1_0000;
    var twice := once % 0x1_0000 + once / 0x1_0000;
    0xFFFF - twice
  }

  /** csum_diff for two four-byte operands. */
  function Diff(from: U32, to: U32): (r: U32)
    ensures Cong(r, to - from)
  {
    Add(Not32(from), to)
  }

  /** The checksum helpers' update of a checksum field by a difference: RFC 1624, equation 3. */
  function Replace(hc: U16, diff: U32): (r: U16)
    ensures r < 0xFFFF && Cong(r, hc - diff)
  {
    ReplaceMeaning(hc, diff);
    Fold(Add(diff, Not32(hc)))
  }

  lemma ReplaceMeaning(hc: U16, diff: U32)
    ensures var r := Fold(Add(diff, Not32(hc))); r < 0xFFFF && Cong(r, hc - diff)
  {
    hide Add, Fold, Cong;
    var s := Add(diff, Not32(hc));
    CongReplace(hc, diff, s, Fold(s));
  }

  lemma CongReplace(hc: int, diff: int, s: int, r: int)
    requires Cong(s, diff + (U32_SIZE - 1 - hc)) && Cong(r + s, 0)
    ensures Cong(r, hc - diff)
  {
  }

  /** l4_csum_replace; with BPF_F_MARK_MANGLED_0 (UDP) a zero field means "no checksum" and is left alone,
      and a computed zero is stored as 0xFFFF. */
  function Amend(hc: U16, diff: U32, mangled0: bool): (r: U16)
    ensures Moved(hc, r, diff, mangled0)
  {
    if mangled0 && hc == 0 then 0
    else
      var r := Replace(hc, diff);
      if mangled0 && r == 0 then 0xFFFF else r
  }

  /** What an amended field must be when the words it protects grew by `delta`. */
  ghost predicate Moved(hc: U16, hc': U16, delta: int, mangled0: bool) {
    if mangled0 then
      (hc == 0 <==> hc' == 0) && (hc != 0 ==> Cong(hc', hc - delta))
    else
      hc' < 0xFFFF && Cong(hc', hc - delta)
  }

  lemma MovedTrans(a: U16, b: U16, c: U16, d: int, e: int, z: bool)
    requires Moved(a, b, d, z) && Moved(b, c, e, z)
    ensures Moved(a, c, d + e, z)
  {
  }

  lemma MovedUnique(a: U16, b: U16, c: U16, d: int, e: int, z: bool)
    requires Moved(a, b, d, z) && Moved(a, c, e, z) && Cong(d, e)
    ensures b == c
  {
  }

  /** The two encodings of a zero sum collapse into one when a field without the UDP rule is amended. */
  function Normal(hc: U16, mangled0: bool): U16 {
    if !mangled0 && hc == 0xFFFF then 0 else hc
  }

  /** Amending and amending back restores the field, up to that collapse: exactly iff it was not 0xFFFF. */
  lemma AmendRoundTrip(hc: U16, there: U32, back: U32, z: bool)
    requires Cong(there + back, 0)
    ensures Amend(Amend(hc, there, z), back, z) == Normal(hc, z)
    ensures Amend(Amend(hc, there, z), back, z) == hc <==> z || hc != 0xFFFF
  {
    var h1 := Amend(hc, there, z);
    MovedTrans(hc, h1, Amend(h1, back, z), there, back, z);
    MovedUnique(hc, Amend(h1, back, z), Normal(hc, z), there + back, 0, z);
  }

  // ---------------------------------------------------------------- sums over a buffer

  function Sum(w: seq<U16>, lo: nat, hi: nat): nat
    requires lo <= hi <= |w|
    decreases hi - lo
  {
    if lo == hi then 0 else w[lo] + Sum(w, lo + 1, hi)
  }

  ghost predicate ValidSum(s: nat) {
    s > 0 && s % M == 0
  }

  lemma {:induction false} SumUpdate(w: seq<U16>, lo: nat, hi: nat, i: nat, v: U16)
    requires lo <= hi <= |w| && i < |w|
    ensures Sum(w[i := v], lo, hi) == Sum(w, lo, hi) + if lo <= i < hi then v - w[i] else 0
    decreases hi - lo
  {
    if lo < hi {
      SumUpdate(w, lo + 1, hi, i, v);
    }
  }

  lemma {:induction false} SumAtLeast(w: seq<U16>, lo: nat, hi: nat, i: nat)
    requires lo <= i < hi <= |w|
    ensures Sum(w, lo, hi) >= w[i]
    decreases hi - lo
  {
    if lo < i {
      SumAtLeast(w, lo + 1, hi, i);
    }
  }
}
