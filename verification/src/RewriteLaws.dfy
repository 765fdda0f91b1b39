/** What a header rewrite means: which words it touches, that it keeps checksums valid, and that the opposite
    rewrite undoes it. */
module RewriteLaws {
  import opened Net
  import opened Checksum
  import opened PacketBuffer

  /** Where the checksum of a transport protocol sits. SCTP's CRC is never touched. */
  function CsumField(proto: U8): Option<nat> {
    if proto == IPPROTO_ICMP then Some(ICMP_CSUM) else PseudoCsum(proto)
  }

  /** The rewrite addresses an IPv4 header at l3 followed by its L4 header, and its old values are those
      found in the packet. */
  ghost predicate WellPlaced(w: Words, c: Rewrite) {
    && (c.addrOff == IP_SADDR || c.addrOff == IP_DADDR)
    && c.l3 + IP_WORDS <= c.l4 <= |w|
    && AddrAt(w, c.l3 + c.addrOff) == c.oldAddr
    && (c.hasL4 && c.oldPort != c.newPort ==>
          && c.portOff in (if c.proto == IPPROTO_ICMP then {ICMP_ID} else {L4_SPORT, L4_DPORT})
          && c.l4 + c.portOff < |w| && w[c.l4 + c.portOff] == c.oldPort)
  }

  predicate Unchanged(c: Rewrite) {
    c.oldAddr == c.newAddr && c.oldPort == c.newPort && c.innerDiff == 0
  }

  ghost function PortDelta(c: Rewrite): int {
    c.newPort as int - c.oldPort as int
  }

  ghost function AddrDelta(c: Rewrite): int {
    c.newAddr as int - c.oldAddr as int
  }

  /** Word-by-word meaning of a rewrite that was carried out; `full` says that the checksum field of TCP was
      within the packet. */
  ghost predicate Rewritten(w: Words, w': Words, c: Rewrite, full: bool) {
    && |w'| == |w|
    && c.l3 + c.addrOff + 1 < |w| && IP_CSUM < c.addrOff
    && w'[c.l3 + c.addrOff] == Hi(c.newAddr) && w'[c.l3 + c.addrOff + 1] == Lo(c.newAddr)
    && Moved(w[c.l3 + IP_CSUM], w'[c.l3 + IP_CSUM], AddrDelta(c), false)
    && (c.hasL4 && c.oldPort != c.newPort ==>
          c.l4 + c.portOff < |w| && w'[c.l4 + c.portOff] == c.newPort)
    && (c.hasL4 && full && CsumField(c.proto).Some? && CsumMoves(c) ==>
          var i := c.l4 + CsumField(c.proto).value;
          i < |w| && Moved(w[i], w'[i], CsumDelta(c), c.proto == IPPROTO_UDP))
    && forall i :: 0 <= i < |w| && !Touched(c, full, i) ==> w'[i] == w[i]
  }

  /** ICMP's checksum covers no addresses, so it only moves with the identifier or the embedded packet. */
  predicate CsumMoves(c: Rewrite) {
    c.proto == IPPROTO_ICMP ==> c.oldPort != c.newPort || c.innerDiff != 0
  }

  ghost function CsumDelta(c: Rewrite): int {
    PortDelta(c) + if c.proto == IPPROTO_ICMP then c.innerDiff else AddrDelta(c)
  }

  ghost predicate Touched(c: Rewrite, full: bool, i: int) {
    || i == c.l3 + IP_CSUM || i == c.l3 + c.addrOff || i == c.l3 + c.addrOff + 1
    || (c.hasL4 && c.oldPort != c.newPort && i == c.l4 + c.portOff)
    || (c.hasL4 && full && CsumField(c.proto).Some? && CsumMoves(c) && i == c.l4 + CsumField(c.proto).value)
  }

  lemma MovedCong(a: U16, b: U16, d: int, e: int, z: bool)
    requires Moved(a, b, d, z) && Cong(d, e)
    ensures Moved(a, b, e, z)
  {
  }

  lemma MovedBoth(h: U16, h1: U16, h2: U16, d: int, d': int, e: int, e': int, z: bool)
    requires Moved(h, h1, d, z) && Cong(d, d') && Moved(h1, h2, e, z) && Cong(e, e')
    ensures Moved(h, h2, d' + e', z)
  {
    MovedTrans(h, h1, h2, d, e, z);
    MovedCong(h, h2, d + e, d' + e', z);
  }

  /** The address rewrite alone. */
  lemma L3Meaning(w: Words, c: Rewrite)
    requires IP_CSUM < c.addrOff && c.l3 + c.addrOff + 1 < |w|
    ensures var w' := RewriteL3(w, c.l3, c.addrOff, c.oldAddr, c.newAddr);
            Rewritten(w, w', c.(hasL4 := false), false)
  {
    hide Cong, Moved, Amend, Diff;
    var w' := RewriteL3(w, c.l3, c.addrOff, c.oldAddr, c.newAddr);
    MovedCong(w[c.l3 + IP_CSUM], w'[c.l3 + IP_CSUM], Diff(c.oldAddr, c.newAddr), AddrDelta(c), false);
  }

  /** When a rewrite succeeds: nothing is to be done, or all the fields it has to change lie within the packet and no
      port of a protocol with another kind of checksum changes. */
  lemma RewriteOkIff(w: Words, len: nat, c: Rewrite, sctp: bool)
    requires |w| == WordCount(len) && IP_CSUM < c.addrOff
    ensures var r := RewriteHeaders(w, len, c, sctp).r;
            var csum := c.l4 + if c.proto == IPPROTO_TCP then 8 else if c.proto == IPPROTO_UDP then 3 else 1;
            && (r.Ok? <==>
                  || Unchanged(c)
                  || (2 * (c.l3 + c.addrOff) + 4 <= len
                      && (c.hasL4 ==>
                            && (c.oldPort != c.newPort ==>
                                  && c.proto in {IPPROTO_TCP, IPPROTO_UDP, IPPROTO_ICMP}
                                  && 2 * (c.l4 + c.portOff) + 2 <= len && 2 * csum + 2 <= len)
                            && (c.proto in {IPPROTO_TCP, IPPROTO_UDP} || c.innerDiff != 0 ==> 2 * csum + 2 <= len))))
            && (r.Err? && 2 * (c.l3 + c.addrOff) + 4 > len ==> r == Err(WriteError))
            && (r.Err? && 2 * (c.l3 + c.addrOff) + 4 <= len && c.oldPort == c.newPort ==> r == Err(CsumL4))
            && (r.Err? && 2 * (c.l3 + c.addrOff) + 4 <= len && c.oldPort != c.newPort ==>
                  if c.proto !in {IPPROTO_TCP, IPPROTO_UDP, IPPROTO_ICMP}
                  then r == Err(if c.proto == IPPROTO_SCTP && sctp then CsumL4 else UnknownL4)
                  else r == Err(if 2 * (c.l4 + c.portOff) + 2 > len then WriteError else CsumL4))
  {
    hide Amend, Diff, Hi, Lo;
  }

  /** A rewrite that reports success did exactly what Rewritten says. */
  lemma RewriteMeaning(w: Words, len: nat, c: Rewrite, sctp: bool)
    requires |w| == WordCount(len) && WellPlaced(w, c) && !Unchanged(c)
    requires c.innerDiff != 0 ==> c.proto == IPPROTO_ICMP
    requires RewriteHeaders(w, len, c, sctp).r.Ok?
    ensures Rewritten(w, RewriteHeaders(w, len, c, sctp).w, c, true)
  {
    hide Cong, Moved, Amend, Diff, RewriteL3, RewriteL4;
    var w1 := RewriteL3(w, c.l3, c.addrOff, c.oldAddr, c.newAddr);
    L3Meaning(w, c);
    if c.hasL4 {
      L4Meaning(w1, len, c, sctp);
      Compose(w, w1, RewriteHeaders(w, len, c, sctp).w, c);
    }
  }

  /** What the L4 half of a rewrite did to the words behind the IP header. */
  ghost predicate L4Rewritten(w: Words, w': Words, c: Rewrite) {
    && |w'| == |w|
    && (c.oldPort != c.newPort ==> c.l4 + c.portOff < |w| && w'[c.l4 + c.portOff] == c.newPort)
    && (CsumField(c.proto).Some? && CsumMoves(c) ==>
          var i := c.l4 + CsumField(c.proto).value;
          i < |w| && Moved(w[i], w'[i], CsumDelta(c), c.proto == IPPROTO_UDP))
    && forall i :: 0 <= i < |w|
         && !(c.oldPort != c.newPort && i == c.l4 + c.portOff)
         && !(CsumField(c.proto).Some? && CsumMoves(c) && i == c.l4 + CsumField(c.proto).value)
         ==> w'[i] == w[i]
  }

  lemma Compose(w: Words, w1: Words, w': Words, c: Rewrite)
    requires WellPlaced(w, c) && c.hasL4
    requires Rewritten(w, w1, c.(hasL4 := false), false) && L4Rewritten(w1, w', c)
    ensures Rewritten(w, w', c, true)
  {
    hide Cong, Moved, AddrAt, Hi, Lo;
  }

  lemma L4Meaning(w: Words, len: nat, c: Rewrite, sctp: bool)
    requires |w| == WordCount(len) && c.hasL4
    requires c.innerDiff != 0 ==> c.proto == IPPROTO_ICMP
    requires c.oldPort != c.newPort ==>
               c.portOff in (if c.proto == IPPROTO_ICMP then {ICMP_ID} else {L4_SPORT, L4_DPORT})
    requires RewriteL4(w, len, c, Diff(c.oldAddr, c.newAddr), sctp).r.Ok?
    ensures L4Rewritten(w, RewriteL4(w, len, c, Diff(c.oldAddr, c.newAddr), sctp).w, c)
  {
    hide Cong, Moved, Amend, Diff;
    var d := Diff(c.oldAddr, c.newAddr);
    var w1 := PortStep(w, len, c, sctp).w;
    var w' := RewriteL4(w, len, c, d, sctp).w;
    var z := c.proto == IPPROTO_UDP;
    if CsumField(c.proto).Some? && CsumMoves(c) {
      var i := c.l4 + CsumField(c.proto).value;
      if c.oldPort == c.newPort {
        MovedCong(w[i], w'[i], if c.proto == IPPROTO_ICMP then c.innerDiff else d, CsumDelta(c), z);
      } else if c.proto == IPPROTO_ICMP && c.innerDiff == 0 {
        MovedCong(w[i], w'[i], Diff(c.oldPort, c.newPort), CsumDelta(c), z);
      } else {
        MovedBoth(w[i], w1[i], w'[i], Diff(c.oldPort, c.newPort), PortDelta(c),
                  if c.proto == IPPROTO_ICMP then c.innerDiff else d,
                  if c.proto == IPPROTO_ICMP then c.innerDiff else AddrDelta(c), z);
      }
    }
  }

  /** A quoted TCP header cut off before its checksum: the addresses and the port are rewritten, the missing
      checksum is reported. */
  lemma TruncatedMeaning(w: Words, len: nat, c: Rewrite, sctp: bool)
    requires |w| == WordCount(len) && WellPlaced(w, c) && !Unchanged(c)
    requires c.innerDiff == 0 && c.proto == IPPROTO_TCP && c.hasL4
    requires InBounds(len, c.l4, 2) && !InBounds(len, c.l4 + TCP_CSUM, 1)
    ensures RewriteHeaders(w, len, c, sctp).r == Err(CsumL4)
    ensures Rewritten(w, RewriteHeaders(w, len, c, sctp).w, c, false)
  {
    hide Cong, Moved, Amend, Diff;
    L3Meaning(w, c);
  }

  // ---------------------------------------------------------------- sums

  lemma {:induction false} SumAgree(w: Words, v: Words, lo: nat, hi: nat)
    requires lo <= hi <= |w| && hi <= |v|
    requires forall i :: lo <= i < hi ==> w[i] == v[i]
    ensures Sum(w, lo, hi) == Sum(v, lo, hi)
    decreases hi - lo
  {
    if lo < hi { SumAgree(w, v, lo + 1, hi); }
  }

  lemma CongRefl(a: int)
    ensures Cong(a, a)
  {
  }

  lemma CancelSum(s: int, s': int, hi: int, hi': int, lo: int, lo': int, h: int, h': int, o: int, n: int)
    requires s' == s + (hi' - hi) + (lo' - lo) + (h' - h)
    requires Cong(o, hi + lo) && Cong(n, hi' + lo') && Cong(h', h - (n - o))
    ensures Cong(s', s)
  {
  }

  /** Replacing an address and amending the header checksum cancel out in any stretch before the L4 header
      that holds the IP header. */
  lemma L3Cancels(w: Words, w': Words, c: Rewrite, full: bool, lo: nat)
    requires WellPlaced(w, c) && Rewritten(w, w', c, full) && lo <= c.l3
    ensures Cong(Sum(w', lo, c.l4), Sum(w, lo, c.l4))
  {
    hide Cong, Moved, Hi, Lo, AddrAt;
    var i, k := c.l3 + c.addrOff, c.l3 + IP_CSUM;
    var w1 := w[i := w'[i]];
    var w2 := w1[i + 1 := w'[i + 1]];
    var w3 := w2[k := w'[k]];
    SumUpdate(w, lo, c.l4, i, w'[i]);
    SumUpdate(w1, lo, c.l4, i + 1, w'[i + 1]);
    SumUpdate(w2, lo, c.l4, k, w'[k]);
    SumAgree(w', w3, lo, c.l4);
    AddrCong(c.newAddr);
    AddrCong(c.oldAddr);
    AddrParts(w, i);
    MovedMeans(w[k], w'[k], AddrDelta(c), false);
    CancelSum(Sum(w, lo, c.l4), Sum(w', lo, c.l4), w[i], w'[i], w[i + 1], w'[i + 1], w[k], w'[k],
              c.oldAddr, c.newAddr);
  }

  lemma AddrCong(a: Addr)
    ensures Cong(a, Hi(a) + Lo(a))
  {
  }

  lemma AddrParts(w: Words, i: nat)
    requires i + 1 < |w|
    ensures w[i] == Hi(AddrAt(w, i)) && w[i + 1] == Lo(AddrAt(w, i))
  {
  }

  lemma MovedSmall(h: U16, h': U16, d: int)
    requires Moved(h, h', d, false)
    ensures h' < 0xFFFF && !ValidSum(h')
  {
  }

  lemma MovedMeans(h: U16, h': U16, d: int, z: bool)
    requires Moved(h, h', d, z) && (z ==> h != 0)
    ensures Cong(h', h - d)
  {
  }

  /** In the L4 part, only the port and the checksum field add to the sum. */
  lemma RewrittenL4(w: Words, w': Words, c: Rewrite, full: bool, hi: nat)
    requires WellPlaced(w, c) && Rewritten(w, w', c, full) && c.hasL4
    requires c.l4 <= hi <= |w|
    requires c.oldPort != c.newPort ==> c.l4 + c.portOff < hi
    requires CsumField(c.proto).Some? && CsumMoves(c) && full ==> c.l4 + CsumField(c.proto).value < hi
    ensures var moved := if CsumField(c.proto).Some? && CsumMoves(c) && full
                         then var i := c.l4 + CsumField(c.proto).value; w'[i] as int - w[i] as int else 0;
            Sum(w', c.l4, hi) == Sum(w, c.l4, hi) + PortDelta(c) + moved
  {
    hide Cong, Moved, Hi, Lo, AddrAt;
    var w1 := if c.oldPort != c.newPort then w[c.l4 + c.portOff := c.newPort] else w;
    if c.oldPort != c.newPort { SumUpdate(w, c.l4, hi, c.l4 + c.portOff, c.newPort); }
    var w2 := w1;
    if CsumField(c.proto).Some? && CsumMoves(c) && full {
      var i := c.l4 + CsumField(c.proto).value;
      w2 := w1[i := w'[i]];
      SumUpdate(w1, c.l4, hi, i, w'[i]);
    }
    SumAgree(w', w2, c.l4, hi);
  }

  lemma {:induction false} SumSplit(w: Words, lo: nat, mid: nat, hi: nat)
    requires lo <= mid <= hi <= |w|
    ensures Sum(w, lo, hi) == Sum(w, lo, mid) + Sum(w, mid, hi)
    decreases mid - lo
  {
    if lo < mid { SumSplit(w, lo + 1, mid, hi); }
  }

  // ---------------------------------------------------------------- validity

  /** The IPv4 header at l3 has a correct header checksum. */
  ghost predicate IpValid(w: Words, l3: nat) {
    && l3 < |w| && HdrWords(w, l3) >= IP_WORDS && l3 + HdrWords(w, l3) <= |w|
    && ValidSum(Sum(w, l3, l3 + HdrWords(w, l3)))
  }

  ghost function PseudoSum(w: Words, l3: nat, l4Len: nat): nat
    requires l3 + IP_WORDS <= |w|
  {
    w[l3 + IP_SADDR] + w[l3 + IP_SADDR + 1] + w[l3 + IP_DADDR] + w[l3 + IP_DADDR + 1] + Proto(w, l3) + l4Len
  }

  /** The transport checksum over [l4, end) is correct; `l4Len` is the length in the pseudo header. */
  ghost predicate L4Valid(w: Words, l3: nat, l4: nat, end: nat, l4Len: nat)
    requires l3 + IP_WORDS <= l4 <= end <= |w|
  {
    var proto := Proto(w, l3);
    if proto == IPPROTO_ICMP then ValidSum(Sum(w, l4, end))
    else if proto == IPPROTO_UDP then
      l4 + UDP_CSUM < end && (w[l4 + UDP_CSUM] == 0 || ValidSum(PseudoSum(w, l3, l4Len) + Sum(w, l4, end)))
    else if proto == IPPROTO_TCP then
      l4 + TCP_CSUM < end && ValidSum(PseudoSum(w, l3, l4Len) + Sum(w, l4, end))
    else true
  }

  /** SCTP's CRC is not modelled; its words never change. */
  lemma SctpValid(w: Words, l3: nat, l4: nat, end: nat, l4Len: nat)
    requires l3 + IP_WORDS <= l4 <= end <= |w| && Proto(w, l3) == IPPROTO_SCTP
    ensures L4Valid(w, l3, l4, end, l4Len)
  {
  }

  /** Every rewrite keeps the IPv4 header checksum correct. */
  lemma IpStaysValid(w: Words, w': Words, c: Rewrite, full: bool)
    requires WellPlaced(w, c) && Rewritten(w, w', c, full)
    requires IpValid(w, c.l3) && c.l4 == c.l3 + HdrWords(w, c.l3)
    ensures IpValid(w', c.l3)
  {
    hide Cong, Rewritten, ValidSum;
    HeaderKept(w, w', c, full);
    L3Cancels(w, w', c, full, c.l3);
    SumAtLeast(w', c.l3, c.l4, c.l3);
    ValidCong(Sum(w, c.l3, c.l4), Sum(w', c.l3, c.l4));
  }

  lemma HeaderKept(w: Words, w': Words, c: Rewrite, full: bool)
    requires WellPlaced(w, c) && Rewritten(w, w', c, full)
    ensures |w'| == |w| && w'[c.l3] == w[c.l3] && HdrWords(w', c.l3) == HdrWords(w, c.l3)
  {
    hide Moved, Hi, Lo;
  }

  lemma PseudoMoves(w: Words, w': Words, c: Rewrite, l4Len: nat)
    requires WellPlaced(w, c) && Rewritten(w, w', c, true)
    ensures Cong(PseudoSum(w', c.l3, l4Len), PseudoSum(w, c.l3, l4Len) + AddrDelta(c))
    ensures Proto(w', c.l3) == Proto(w, c.l3)
  {
    hide Cong, Moved, Hi, Lo, AddrAt;
    var i := c.l3 + c.addrOff;
    assert w'[c.l3 + IP_PROTO] == w[c.l3 + IP_PROTO];
    assert PseudoSum(w', c.l3, l4Len) ==
           PseudoSum(w, c.l3, l4Len) + (w'[i] as int - w[i]) + (w'[i + 1] as int - w[i + 1]);
    AddrCong(c.oldAddr);
    AddrCong(c.newAddr);
    AddrParts(w, i);
    assert Cong(c.oldAddr, c.newAddr as int - (c.newAddr as int - c.oldAddr as int)) by { CongRefl(c.oldAddr); }
    CancelSum(PseudoSum(w, c.l3, l4Len) + AddrDelta(c), PseudoSum(w', c.l3, l4Len),
              w[i], w'[i], w[i + 1], w'[i + 1], c.newAddr, c.oldAddr, c.oldAddr, c.newAddr);
  }

  lemma BalanceSum(s: int, p: int, p': int, s': int, h: int, h': int, a: int, d: int)
    requires Cong(p', p + a) && s' == s + d + (h' - h) && Cong(h', h - (d + a))
    ensures Cong(p' + s', p + s)
  {
  }

  lemma ValidCong(s: nat, s': nat)
    requires ValidSum(s) && Cong(s', s) && s' > 0
    ensures ValidSum(s')
  {
  }

  lemma AbsentStays(h: U16, h': U16, d: int)
    requires Moved(h, h', d, true) && h == 0
    ensures h' == 0
  {
  }

  /** TCP and UDP checksums stay correct (an absent UDP checksum stays absent). */
  lemma TransportStaysValid(w: Words, w': Words, c: Rewrite, end: nat, l4Len: nat)
    requires WellPlaced(w, c) && Rewritten(w, w', c, true) && c.hasL4
    requires c.proto == Proto(w, c.l3) && (c.proto == IPPROTO_TCP || c.proto == IPPROTO_UDP)
    requires c.l4 <= end <= |w| && L4Valid(w, c.l3, c.l4, end, l4Len)
    ensures L4Valid(w', c.l3, c.l4, end, l4Len)
  {
    hide Cong, Moved, Hi, Lo, AddrAt, ValidSum;
    PseudoMoves(w, w', c, l4Len);
    RewrittenL4(w, w', c, true, end);
    var k := c.l4 + CsumField(c.proto).value;
    if c.proto == IPPROTO_TCP || w[k] != 0 {
      MovedMeans(w[k], w'[k], CsumDelta(c), c.proto == IPPROTO_UDP);
      BalanceSum(Sum(w, c.l4, end), PseudoSum(w, c.l3, l4Len), PseudoSum(w', c.l3, l4Len), Sum(w', c.l4, end),
                 w[k], w'[k], AddrDelta(c), PortDelta(c));
      ValidCong(PseudoSum(w, c.l3, l4Len) + Sum(w, c.l4, end), PseudoSum(w', c.l3, l4Len) + Sum(w', c.l4, end));
    } else {
      AbsentStays(w[k], w'[k], CsumDelta(c));
    }
  }

  /** An ICMP query whose identifier changes: the amended checksum is correct iff the message is not all
      zero. A message whose words all become zero would need the checksum 0xFFFF, but the incremental update
      yields 0. */
  lemma EchoValidIffNonZero(w: Words, w': Words, c: Rewrite, end: nat, l4Len: nat)
    requires WellPlaced(w, c) && Rewritten(w, w', c, true) && c.hasL4 && c.innerDiff == 0
    requires c.proto == Proto(w, c.l3) == IPPROTO_ICMP && c.oldPort != c.newPort
    requires c.l4 + ICMP_ID < end <= |w| && L4Valid(w, c.l3, c.l4, end, l4Len)
    ensures L4Valid(w', c.l3, c.l4, end, l4Len) <==>
              exists i :: c.l4 <= i < end && i != c.l4 + ICMP_CSUM && w'[i] != 0
  {
    hide Cong, Moved, Hi, Lo, AddrAt;
    PseudoMoves(w, w', c, l4Len);
    RewrittenL4(w, w', c, true, end);
    var s, k := Sum(w', c.l4, end), c.l4 + ICMP_CSUM;
    MovedMeans(w[k], w'[k], PortDelta(c), false);
    assert Cong(0, 0) by { CongRefl(0); }
    BalanceSum(Sum(w, c.l4, end), 0, 0, s, w[k], w'[k], 0, PortDelta(c));
    if i :| c.l4 <= i < end && i != c.l4 + ICMP_CSUM && w'[i] != 0 {
      SumAtLeast(w', c.l4, end, i);
      ValidCong(Sum(w, c.l4, end), s);
    } else {
      SumAllButOne(w', c.l4, end, k);
      MovedSmall(w[k], w'[k], PortDelta(c));
    }
  }

  lemma {:induction false} SumAllButOne(w: Words, lo: nat, hi: nat, j: nat)
    requires lo <= hi <= |w| && j < |w|
    requires forall i :: lo <= i < hi && i != j ==> w[i] == 0
    ensures Sum(w, lo, hi) == if lo <= j < hi then w[j] else 0
    decreases hi - lo
  {
    if lo < hi { SumAllButOne(w, lo + 1, hi, j); }
  }

  // ---------------------------------------------------------------- inverse

  function Inverse(c: Rewrite): Rewrite {
    c.(oldAddr := c.newAddr, newAddr := c.oldAddr, oldPort := c.newPort, newPort := c.oldPort)
  }

  /** The field a word of the original packet comes back as after rewriting there and back. */
  ghost function Restored(w: Words, c: Rewrite, full: bool, i: int): U16
    requires 0 <= i < |w|
  {
    if Unchanged(c) then w[i]
    else if i == c.l3 + IP_CSUM then Normal(w[i], false)
    else if c.hasL4 && full && CsumField(c.proto).Some? && CsumMoves(c) && i == c.l4 + CsumField(c.proto).value
    then Normal(w[i], c.proto == IPPROTO_UDP)
    else w[i]
  }

  /** Rewriting a field there and back, in two different buffers that agree on the words concerned.
      `w` becomes `w1`; a copy `v` of the first `n` words of `w1`, placed `shift` words further on, is rewritten by the
      inverse and becomes `v1`. Every copied word comes back as in `w`. */
  lemma UndoneWord(w: Words, w1: Words, v: Words, v1: Words, c: Rewrite, shift: nat, full: bool, n: nat, i: nat)
    requires !Unchanged(c) && WellPlaced(w, c) && Rewritten(w, w1, c, true) && c.innerDiff == 0
    requires var c' := Inverse(c).(l3 := c.l3 + shift, l4 := c.l4 + shift);
             Rewritten(v, v1, c', full)
    requires i < n <= |w| && n + shift <= |v| && v[i + shift] == w1[i]
    requires c.l4 <= n
    requires c.hasL4 && CsumField(c.proto).Some? && c.l4 + CsumField(c.proto).value < n ==> full
    ensures v1[i + shift] == Restored(w, c, full, i)
  {
    hide Cong, Moved, Hi, Lo;
    var c' := Inverse(c).(l3 := c.l3 + shift, l4 := c.l4 + shift);
    if i == c.l3 + IP_CSUM {
      UndoneField(w[i], w1[i], v1[i + shift], AddrDelta(c), AddrDelta(c'), false);
    } else if i == c.l3 + c.addrOff || i == c.l3 + c.addrOff + 1 {
      AddrParts(w, c.l3 + c.addrOff);
    } else if c.hasL4 && CsumField(c.proto).Some? && CsumMoves(c) && i == c.l4 + CsumField(c.proto).value {
      UndoneField(w[i], w1[i], v1[i + shift], CsumDelta(c), CsumDelta(c'), c.proto == IPPROTO_UDP);
    } else if c.hasL4 && c.oldPort != c.newPort && i == c.l4 + c.portOff {
    } else {
      assert !Touched(c, true, i) && !Touched(c', full, i + shift);
    }
  }

  lemma UndoneField(h: U16, h1: U16, h2: U16, d: int, e: int, z: bool)
    requires Moved(h, h1, d, z) && Moved(h1, h2, e, z) && d + e == 0
    ensures h2 == Normal(h, z)
  {
    MovedTrans(h, h1, h2, d, e, z);
    MovedUnique(h, h2, Normal(h, z), 0, 0, z);
  }
}
