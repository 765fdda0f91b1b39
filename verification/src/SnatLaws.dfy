/** What SNAT of whole packets promises: valid checksums everywhere, and round trips of replies and of the
    packets quoted in ICMP errors. */
module SnatLaws {
  import opened Net
  import opened Checksum
  import opened PacketBuffer
  import opened RewriteLaws
  import opened SnatTable
  import opened SnatPacket

  // ---------------------------------------------------------------- parsing describes the packet

  /** A flow view reports what is in the packet. */
  ghost predicate Describes(w: Words, l3: nat, v: View) {
    && v.Flow? && l3 + IP_WORDS <= |w|
    && var l4 := l3 + HdrWords(w, l3);
    && v.key.nexthdr == Proto(w, l3)
    && v.key.saddr == AddrAt(w, l3 + IP_SADDR) && v.key.daddr == AddrAt(w, l3 + IP_DADDR)
    && (v.key.flags == F_OUT || v.key.flags == F_IN)
    && var own := if v.key.flags == F_OUT then v.key.sport else v.key.dport;
    && (HasL4Header(w, l3) ==> l4 + v.portOff < |w| && w[l4 + v.portOff] == own)
    && v.portOff in (if v.key.nexthdr == IPPROTO_ICMP then {ICMP_ID} else {L4_SPORT, L4_DPORT})
  }

  lemma ParseDescribes(w: Words, len: nat, l3: nat, cfg: Config, target: NatTarget, tracked: Option<(Port, Port)>)
    requires |w| == WordCount(len) && InBounds(len, l3, IP_WORDS)
    ensures var o := ParseOut(w, len, l3, cfg, target, tracked);
            o.Ok? && o.value.Flow? ==> Describes(w, l3, o.value) && o.value.key.flags == F_OUT
    ensures var i := ParseIn(w, len, l3, cfg, target, tracked);
            i.Ok? && i.value.Flow? ==> Describes(w, l3, i.value) && i.value.key.flags == F_IN
  {
    hide AddrAt;
  }

  lemma FlowPlaced(w: Words, l3: nat, v: View, e: NatEntry)
    requires Describes(w, l3, v) && HdrWords(w, l3) >= IP_WORDS && l3 + HdrWords(w, l3) <= |w|
    ensures WellPlaced(w, FlowRewrite(w, l3, v, e))
  {
    hide AddrAt;
  }

  // ---------------------------------------------------------------- checksums of flow packets

  /** Rewriting a flow packet keeps its IPv4 and its TCP or UDP checksum valid. */
  lemma FlowStaysValid(w: Words, len: nat, l3: nat, v: View, e: NatEntry, sctp: bool, end: nat, l4Len: nat)
    requires |w| == WordCount(len) && Describes(w, l3, v) && IpValid(w, l3)
    requires var c := FlowRewrite(w, l3, v, e); RewriteHeaders(w, len, c, sctp).r.Ok?
    requires l3 + HdrWords(w, l3) <= end <= |w|
    ensures var w' := RewriteHeaders(w, len, FlowRewrite(w, l3, v, e), sctp).w;
            && IpValid(w', l3) && |w'| == |w|
            && (HasL4Header(w, l3) && v.key.nexthdr in {IPPROTO_TCP, IPPROTO_UDP}
                && L4Valid(w, l3, l3 + HdrWords(w, l3), end, l4Len)
                ==> L4Valid(w', l3, l3 + HdrWords(w, l3), end, l4Len))
  {
    hide AddrAt, Amend, Diff, RewriteHeaders, Rewritten, IpValid, L4Valid;
    var c := FlowRewrite(w, l3, v, e);
    var w' := RewriteHeaders(w, len, c, sctp).w;
    FlowHeader(w, l3);
    if Unchanged(c) {
      NoRewrite(w, len, c, sctp);
    } else {
      FlowPlaced(w, l3, v, e);
      RewriteMeaning(w, len, c, sctp);
      IpStaysValid(w, w', c, true);
      RewriteKeepsLength(w, len, c, sctp);
      if HasL4Header(w, l3) && v.key.nexthdr in {IPPROTO_TCP, IPPROTO_UDP}
         && L4Valid(w, l3, l3 + HdrWords(w, l3), end, l4Len) {
        TransportStaysValid(w, w', c, end, l4Len);
      }
    }
  }

  lemma FlowHeader(w: Words, l3: nat)
    requires IpValid(w, l3)
    ensures l3 < |w| && HdrWords(w, l3) >= IP_WORDS && l3 + HdrWords(w, l3) <= |w|
  {
  }

  lemma NoRewrite(w: Words, len: nat, c: Rewrite, sctp: bool)
    requires |w| == WordCount(len) && IP_CSUM < c.addrOff && Unchanged(c)
    ensures RewriteHeaders(w, len, c, sctp) == Outcome(w, Ok(()))
  {
  }

  // ---------------------------------------------------------------- quoted packets

  lemma QuotePlaced(w: Words, len: nat, j: nat, out: bool, sctp: bool, e: NatEntry)
    requires |w| == WordCount(len)
    requires ReadQuote(w, len, j, out, sctp).Ok? && HdrWords(w, j) >= IP_WORDS
    ensures var q := ReadQuote(w, len, j, out, sctp).value;
            && WellPlaced(w, QuoteRewrite(j, q, e)) && q.l4 == j + HdrWords(w, j) && q.proto == Proto(w, j)
            && (PortProto(q.proto, sctp) ==> InBounds(len, q.l4, 2))
            && (PortProto(q.proto, sctp) || q.proto == IPPROTO_ICMP)
  {
    hide AddrAt;
  }

  /** A handled quote was rewritten as Rewritten says, with its checksum field if that was quoted. */
  lemma QuoteMeaning(m: Table, w: Words, len: nat, j: nat, out: bool, sctp: bool)
    requires |w| == WordCount(len) && HandleQuote(m, w, len, j, out, sctp).r.Ok?
    requires j < |w| && HdrWords(w, j) >= IP_WORDS
    ensures var q := ReadQuote(w, len, j, out, sctp).value;
            var h := HandleQuote(m, w, len, j, out, sctp);
            && ReadQuote(w, len, j, out, sctp).Ok? && q.key in m && h.r.value.0 == m[q.key]
            && (q.proto == IPPROTO_UDP ==> InBounds(len, q.l4 + UDP_CSUM, 1))
            && h.r.value.1 == OuterDiff(w, len, j, q, m[q.key])
            && var c := QuoteRewrite(j, q, m[q.key]);
            && (if Unchanged(c) then h.w == w else Rewritten(w, h.w, c, CsumQuoted(w, len, j, q)))
            && (q.proto == IPPROTO_SCTP ==> c.oldPort == c.newPort)
  {
    hide AddrAt, Amend, Diff, RewriteHeaders, Rewritten, OuterDiff, ReadQuote;
    var q := ReadQuote(w, len, j, out, sctp).value;
    var c := QuoteRewrite(j, q, m[q.key]);
    QuotePlaced(w, len, j, out, sctp, m[q.key]);
    if Unchanged(c) {
      NoRewrite(w, len, c, sctp);
    } else if CsumQuoted(w, len, j, q) {
      RewriteMeaning(w, len, c, sctp);
      if q.proto == IPPROTO_SCTP { SctpPort(w, len, c, sctp); }
    } else {
      TruncatedMeaning(w, len, c, sctp);
    }
  }

  lemma SctpPort(w: Words, len: nat, c: Rewrite, sctp: bool)
    requires |w| == WordCount(len) && IP_CSUM < c.addrOff
    requires c.hasL4 && c.proto == IPPROTO_SCTP && RewriteHeaders(w, len, c, sctp).r.Ok?
    ensures c.oldPort == c.newPort
  {
    hide Amend, Diff;
  }

  lemma DiffCong(from: U32, to: U32)
    ensures Cong(Diff(from, to), to as int - from as int)
  {
  }

  lemma OuterDiffCong(w: Words, len: nat, j: nat, q: Quote, e: NatEntry)
    requires |w| == WordCount(len) && j < |w|
    requires q.proto == IPPROTO_UDP ==> q.l4 + UDP_CSUM < |w|
    ensures var c := QuoteRewrite(j, q, e);
            Cong(OuterDiff(w, len, j, q, e),
                 if q.proto == IPPROTO_ICMP || q.proto == IPPROTO_SCTP then 0
                 else if CsumQuoted(w, len, j, q) && (q.proto == IPPROTO_UDP ==> w[q.l4 + UDP_CSUM] != 0)
                 then -AddrDelta(c) else PortDelta(c))
  {
    hide Diff, Cong;
    var c := QuoteRewrite(j, q, e);
    CongRefl(0);
    DiffCong(c.newAddr, c.oldAddr);
    DiffCong(c.oldPort, c.newPort);
  }

  lemma QuoteSum(a: int, a': int, b: int, b': int, pd: int, ad: int, h: int, h': int, diff: int, mode: nat)
    requires Cong(a', a)
    requires mode == 0 ==> b' == b + pd + (h' - h) && Cong(h', h - (pd + ad)) && Cong(diff, -ad)
    requires mode == 1 ==> b' == b + pd && Cong(diff, pd)
    requires mode == 2 ==> b' == b + pd + (h' - h) && Cong(h', h - pd) && Cong(diff, 0)
    requires mode <= 2
    ensures Cong(a' + b', a + b + diff)
  {
    hide Cong;
    if mode == 1 {
      CongSymm(diff, pd);
      CongSums(a', a, pd, diff, b);
    } else {
      CongMoved(b, b', pd, h, h', if mode == 0 then ad else 0, diff);
      CongSums(a', a, b' - b, diff, b);
    }
  }

  lemma CongSymm(a: int, b: int)
    requires Cong(a, b)
    ensures Cong(b, a)
  {
  }

  lemma CongSums(a': int, a: int, d': int, d: int, b: int)
    requires Cong(a', a) && Cong(d', d)
    ensures Cong(a' + (b + d'), a + b + d)
  {
  }

  lemma CongMoved(b: int, b': int, pd: int, h: int, h': int, x: int, diff: int)
    requires b' == b + pd + (h' - h) && Cong(h', h - (pd + x)) && Cong(diff, -x)
    ensures Cong(b' - b, diff)
  {
  }

  /** The difference handed to the outer checksum is exactly what the rewritten quote adds to the outer sum:
      with and without a quoted checksum, for UDP without checksum, for ICMP and for SCTP. */
  lemma QuoteBalance(m: Table, w: Words, len: nat, j: nat, out: bool, sctp: bool, lo: nat)
    requires |w| == WordCount(len) && HandleQuote(m, w, len, j, out, sctp).r.Ok?
    requires lo <= j < |w| && HdrWords(w, j) >= IP_WORDS
    ensures var h := HandleQuote(m, w, len, j, out, sctp);
            |h.w| == |w| && Cong(Sum(h.w, lo, |w|), Sum(w, lo, |w|) + h.r.value.1)
  {
    hide AddrAt, Cong, Moved, HandleQuote, ReadQuote, OuterDiff, Rewritten;
    QuoteMeaning(m, w, len, j, out, sctp);
    HandleKeepsLength(m, w, len, j, out, sctp);
    var q := ReadQuote(w, len, j, out, sctp).value;
    var w' := HandleQuote(m, w, len, j, out, sctp).w;
    var c := QuoteRewrite(j, q, m[q.key]);
    QuotePlaced(w, len, j, out, sctp, m[q.key]);
    OuterDiffCong(w, len, j, q, m[q.key]);
    if Unchanged(c) {
      CongShift(Sum(w, lo, |w|), OuterDiff(w, len, j, q, m[q.key]));
    } else {
      var full := CsumQuoted(w, len, j, q);
      L3Cancels(w, w', c, full, lo);
      SumSplit(w, lo, c.l4, |w|);
      SumSplit(w', lo, c.l4, |w|);
      QuotePort(w, w', c, full);
      RewrittenL4(w, w', c, full, |w|);
      QuoteCases(w, w', c, full, Sum(w, lo, c.l4), Sum(w', lo, c.l4), OuterDiff(w, len, j, q, m[q.key]));
    }
  }

  lemma CongShift(s: int, d: int)
    requires Cong(d, 0)
    ensures Cong(s, s + d)
  {
  }

  lemma QuotePort(w: Words, w': Words, c: Rewrite, full: bool)
    requires WellPlaced(w, c) && Rewritten(w, w', c, full) && c.hasL4
    ensures c.oldPort != c.newPort ==> c.l4 + c.portOff < |w|
    ensures CsumField(c.proto).Some? && CsumMoves(c) && full ==>
              var k := c.l4 + CsumField(c.proto).value;
              k < |w| && |w'| == |w| && Moved(w[k], w'[k], CsumDelta(c), c.proto == IPPROTO_UDP)
  {
  }

  lemma QuoteCases(w: Words, w': Words, c: Rewrite, full: bool, a: int, a': int, diff: int)
    requires |w'| == |w| && c.l4 <= |w| && c.innerDiff == 0
    requires c.proto in {IPPROTO_TCP, IPPROTO_UDP, IPPROTO_ICMP, IPPROTO_SCTP}
    requires c.proto == IPPROTO_SCTP ==> c.oldPort == c.newPort
    requires c.proto != IPPROTO_TCP ==> full
    requires CsumField(c.proto).Some? && CsumMoves(c) && full ==>
               var k := c.l4 + CsumField(c.proto).value;
               k < |w| && Moved(w[k], w'[k], CsumDelta(c), c.proto == IPPROTO_UDP)
    requires var moved := if CsumField(c.proto).Some? && CsumMoves(c) && full
                          then var i := c.l4 + CsumField(c.proto).value; w'[i] as int - w[i] as int else 0;
             Sum(w', c.l4, |w|) == Sum(w, c.l4, |w|) + PortDelta(c) + moved
    requires Cong(a', a)
    requires c.proto == IPPROTO_UDP ==> c.l4 + UDP_CSUM < |w|
    requires Cong(diff, if c.proto == IPPROTO_ICMP || c.proto == IPPROTO_SCTP then 0
                        else if full && (c.proto == IPPROTO_UDP ==> w[c.l4 + UDP_CSUM] != 0)
                        then -AddrDelta(c) else PortDelta(c))
    ensures Cong(a' + Sum(w', c.l4, |w|), a + Sum(w, c.l4, |w|) + diff)
  {
    hide Cong, Moved, Sum;
    var b, b' := Sum(w, c.l4, |w|), Sum(w', c.l4, |w|);
    if CsumField(c.proto).None? || !CsumMoves(c) || !full {
      QuoteSum(a, a', b, b', PortDelta(c), AddrDelta(c), 0, 0, diff, 1);
    } else {
      var k := c.l4 + CsumField(c.proto).value;
      if c.proto == IPPROTO_UDP && w[k] == 0 {
        AbsentStays(w[k], w'[k], CsumDelta(c));
        QuoteSum(a, a', b, b', PortDelta(c), AddrDelta(c), 0, 0, diff, 1);
      } else {
        MovedMeans(w[k], w'[k], CsumDelta(c), c.proto == IPPROTO_UDP);
        QuoteSum(a, a', b, b', PortDelta(c), AddrDelta(c), w[k], w'[k], diff, if c.proto == IPPROTO_ICMP then 2 else 0);
      }
    }
  }

  // ---------------------------------------------------------------- outer checksums of ICMP errors

  lemma QuoteLocal(m: Table, w: Words, len: nat, j: nat, out: bool, sctp: bool)
    requires |w| == WordCount(len) && HandleQuote(m, w, len, j, out, sctp).r.Ok?
    requires j < |w| && HdrWords(w, j) >= IP_WORDS
    ensures var h := HandleQuote(m, w, len, j, out, sctp);
            |h.w| == |w| && forall i :: 0 <= i < j ==> h.w[i] == w[i]
  {
    hide AddrAt, Moved, HandleQuote, ReadQuote, OuterDiff;
    QuoteMeaning(m, w, len, j, out, sctp);
    HandleKeepsLength(m, w, len, j, out, sctp);
    QuotePlaced(w, len, j, out, sctp, m[ReadQuote(w, len, j, out, sctp).value.key]);
  }

  lemma SameHeader(w: Words, w': Words, l3: nat, l4: nat)
    requires |w'| == |w| && IpValid(w, l3) && l4 == l3 + HdrWords(w, l3)
    requires forall i :: 0 <= i < l4 ==> w'[i] == w[i]
    ensures IpValid(w', l3) && HdrWords(w', l3) == HdrWords(w, l3)
  {
    SumAgree(w, w', l3, l4);
  }

  lemma OuterSum(s: nat, s1: nat, s2: nat, d: int, h: int, h': int)
    requires ValidSum(s) && Cong(s1, s + d) && s2 == s1 + (h' - h) && Cong(h', h - d) && s2 > 0
    ensures ValidSum(s2)
  {
  }

  /** The outer half: address, header checksum and the quote's difference. */
  lemma OuterStaysValid(w: Words, len: nat, l3: nat, c: Rewrite, sctp: bool, before: nat)
    requires |w| == WordCount(len) && IpValid(w, l3) && WellPlaced(w, c) && c.l3 == l3 && c.hasL4
    requires c.proto == IPPROTO_ICMP && c.oldPort == c.newPort && c.l4 == l3 + HdrWords(w, l3) && c.l4 + 1 < |w|
    requires RewriteHeaders(w, len, c, sctp).r.Ok?
    requires ValidSum(before) && Cong(Sum(w, c.l4, |w|), before + c.innerDiff) && w[c.l4] != 0
    ensures var w' := RewriteHeaders(w, len, c, sctp).w;
            |w'| == |w| && IpValid(w', l3) && ValidSum(Sum(w', c.l4, |w|))
  {
    hide Cong, Moved, RewriteHeaders, AddrAt, IpValid, ValidSum;
    var w' := RewriteHeaders(w, len, c, sctp).w;
    CongRefl(0);
    if Unchanged(c) {
      NoRewrite(w, len, c, sctp);
      SumAtLeast(w, c.l4, |w|, c.l4);
      OuterSum(before, Sum(w, c.l4, |w|), Sum(w, c.l4, |w|), 0, 0, 0);
    } else {
      RewriteMeaning(w, len, c, sctp);
      IpStaysValid(w, w', c, true);
      RewrittenL4(w, w', c, true, |w|);
      QuotePort(w, w', c, true);
      assert w'[c.l4] == w[c.l4];
      SumAtLeast(w', c.l4, |w|, c.l4);
      if c.innerDiff == 0 {
        OuterSum(before, Sum(w, c.l4, |w|), Sum(w', c.l4, |w|), 0, 0, 0);
      } else {
        var k := c.l4 + ICMP_CSUM;
        MovedMeans(w[k], w'[k], CsumDelta(c), false);
        OuterSum(before, Sum(w, c.l4, |w|), Sum(w', c.l4, |w|), c.innerDiff, w[k], w'[k]);
      }
    }
  }

  /** Translating an ICMP error keeps the outer IPv4 checksum and the outer ICMP checksum, which covers the
      rewritten quote, valid. */
  lemma ErrorStaysValid(m: Table, w: Words, len: nat, l3: nat, out: bool, sctp: bool)
    requires |w| == WordCount(len) && InBounds(len, l3, IP_WORDS) && IpValid(w, l3) && HasL4Header(w, l3)
    requires var l4 := l3 + HdrWords(w, l3); var j := l4 + ICMP_WORDS;
             && j < |w| && HdrWords(w, j) >= IP_WORDS
             && w[l4] / 0x100 in {ICMP_DEST_UNREACH, ICMP_TIME_EXCEEDED}
             && ValidSum(Sum(w, l4, |w|))
    requires ErrorOut(m, w, len, l3, out, sctp).r.Ok?
    ensures var w' := ErrorOut(m, w, len, l3, out, sctp).w;
            var l4 := l3 + HdrWords(w, l3);
            |w'| == |w| && IpValid(w', l3) && ValidSum(Sum(w', l4, |w|))
  {
    hide Cong, RewriteHeaders, HandleQuote, AddrAt, IpValid, ValidSum, Rewritten;
    FlowHeader(w, l3);
    var l4 := l3 + HdrWords(w, l3);
    var j := l4 + ICMP_WORDS;
    var h := HandleQuote(m, w, len, j, out, sctp);
    QuoteLocal(m, w, len, j, out, sctp);
    QuoteBalance(m, w, len, j, out, sctp, l4);
    SameHeader(w, h.w, l3, l4);
    var c := OuterRewrite(w, l3, out, h.r.value.0, h.r.value.1);
    SameAddr(w, h.w, l3 + c.addrOff);
    OuterStaysValid(h.w, len, l3, c, sctp, Sum(w, l4, |w|));
  }

  lemma SameAddr(w: Words, w': Words, i: nat)
    requires i + 1 < |w| && |w'| == |w| && w'[i] == w[i] && w'[i + 1] == w[i + 1]
    ensures AddrAt(w', i) == AddrAt(w, i)
  {
  }
}
