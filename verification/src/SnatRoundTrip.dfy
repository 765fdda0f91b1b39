/** Round trips through SNAT: replies reach the original sender, and ICMP errors end up quoting the packet as it
    was before translation (section 4.2 of RFC 5508). */
module SnatRoundTrip {
  import opened Net
  import opened Checksum
  import opened PacketBuffer
  import opened RewriteLaws
  import opened SnatTable
  import opened SnatPacket
  import opened SnatLaws

  /** A flow packet that carries its L4 header, and the view parsing gives of it. */
  ghost predicate FlowOf(w: Words, len: nat, l3: nat, v: View, out: bool, sctp: bool) {
    && |w| == WordCount(len) && InBounds(len, l3, IP_WORDS)
    && HdrWords(w, l3) >= IP_WORDS && HasL4Header(w, l3)
    && var l4 := l3 + HdrWords(w, l3);
    && v.Flow?
    && var base := Tuple(AddrAt(w, l3 + IP_DADDR), AddrAt(w, l3 + IP_SADDR), 0, 0, Proto(w, l3),
                         if out then F_OUT else F_IN);
    if PortProto(Proto(w, l3), sctp) then
      && InBounds(len, l4, 2)
      && v == Flow(base.(dport := w[l4 + 1], sport := w[l4]), if out then L4_SPORT else L4_DPORT)
    else
      && Proto(w, l3) == IPPROTO_ICMP && InBounds(len, l4, ICMP_WORDS)
      && w[l4] / 0x100 == (if out then ICMP_ECHO else ICMP_ECHOREPLY)
      && var id := w[l4 + ICMP_ID];
      v == Flow(if out then base.(sport := id) else base.(dport := id), ICMP_ID)
  }

  lemma ParseIsFlowOf(w: Words, len: nat, l3: nat, cfg: Config, target: NatTarget, tracked: Option<(Port, Port)>,
                      out: bool)
    requires |w| == WordCount(len) && InBounds(len, l3, IP_WORDS)
    requires HdrWords(w, l3) >= IP_WORDS && HasL4Header(w, l3)
    ensures var p := if out then ParseOut(w, len, l3, cfg, target, tracked)
                     else ParseIn(w, len, l3, cfg, target, tracked);
            p.Ok? && p.value.Flow? ==> FlowOf(w, len, l3, p.value, out, cfg.sctp)
  {
    hide AddrAt;
  }

  lemma FlowOfDescribes(w: Words, len: nat, l3: nat, v: View, out: bool, sctp: bool)
    requires FlowOf(w, len, l3, v, out, sctp)
    ensures Describes(w, l3, v) && v.key.flags == (if out then F_OUT else F_IN)
    ensures l3 + HdrWords(w, l3) <= |w|
  {
    hide AddrAt;
  }

  /** The key under which the opposite direction of a translated flow is found. */
  function OtherKey(k: Tuple, e: NatEntry): Tuple {
    if k.flags == F_OUT then ReverseKey(k, e) else ForwardKey(k, e)
  }

  function OwnAddr(k: Tuple): Addr { if k.flags == F_OUT then k.saddr else k.daddr }
  function OwnPort(k: Tuple): Port { if k.flags == F_OUT then k.sport else k.dport }

  /** The table maps the translated flow back to the endpoint it came from. */
  ghost predicate MapsBack(m: Table, k: Tuple, e: NatEntry) {
    var o := OtherKey(k, e);
    o in m && m[o].addr == OwnAddr(k) && m[o].port == OwnPort(k)
  }

  lemma FieldsAfter(w: Words, len: nat, l3: nat, v: View, e: NatEntry, out: bool, sctp: bool)
    requires FlowOf(w, len, l3, v, out, sctp)
    requires RewriteHeaders(w, len, FlowRewrite(w, l3, v, e), sctp).r.Ok?
    ensures var w1 := RewriteHeaders(w, len, FlowRewrite(w, l3, v, e), sctp).w;
            var l4 := l3 + HdrWords(w, l3);
            && |w1| == |w| && l4 <= |w|
            && AddrAt(w1, l3 + (if out then IP_SADDR else IP_DADDR)) == e.addr
            && AddrAt(w1, l3 + (if out then IP_DADDR else IP_SADDR)) ==
               AddrAt(w, l3 + (if out then IP_DADDR else IP_SADDR))
            && l4 + v.portOff < |w| && w1[l4 + v.portOff] == e.port
            && w1[l3] == w[l3] && w1[l3 + IP_FRAG] == w[l3 + IP_FRAG] && w1[l3 + IP_PROTO] == w[l3 + IP_PROTO]
            && (v.key.nexthdr == IPPROTO_ICMP ==> w1[l4] == w[l4])
            && (v.key.nexthdr != IPPROTO_ICMP ==> l4 + 1 < |w| && w1[l4 + 1 - v.portOff] == w[l4 + 1 - v.portOff])
            && (v.key.nexthdr == IPPROTO_SCTP ==> OwnPort(v.key) == e.port)
  {
    hide AddrAt, Moved, RewriteHeaders, Hi, Lo;
    FlowOfDescribes(w, len, l3, v, out, sctp);
    FlowPlaced(w, l3, v, e);
    var c := FlowRewrite(w, l3, v, e);
    var w1 := RewriteHeaders(w, len, c, sctp).w;
    var l4 := l3 + HdrWords(w, l3);
    var other := l3 + (if out then IP_DADDR else IP_SADDR);
    RewriteKeepsLength(w, len, c, sctp);
    if v.key.nexthdr == IPPROTO_SCTP { SctpPort(w, len, c, sctp); }
    if Unchanged(c) {
      NoRewrite(w, len, c, sctp);
    } else {
      RewriteMeaning(w, len, c, sctp);
      SameAddr(w, w1, other);
      AddrFromParts(w1, l3 + c.addrOff, e.addr);
      PortAfter(w, w1, c);
    }
  }

  lemma PortAfter(w: Words, w1: Words, c: Rewrite)
    requires WellPlaced(w, c) && Rewritten(w, w1, c, true) && c.hasL4 && c.innerDiff == 0
    requires c.l4 + c.portOff < |w| && w[c.l4 + c.portOff] == c.oldPort
    requires c.portOff in (if c.proto == IPPROTO_ICMP then {ICMP_ID} else {L4_SPORT, L4_DPORT})
    ensures w1[c.l4 + c.portOff] == c.newPort
    ensures c.proto == IPPROTO_ICMP ==> w1[c.l4] == w[c.l4]
    ensures c.proto != IPPROTO_ICMP && c.l4 + 1 < |w| ==> w1[c.l4 + 1 - c.portOff] == w[c.l4 + 1 - c.portOff]
  {
    hide AddrAt, Moved, Hi, Lo;
    if c.proto == IPPROTO_ICMP {
      assert !Touched(c, true, c.l4);
    } else if c.l4 + 1 < |w| {
      assert !Touched(c, true, c.l4 + 1 - c.portOff);
    }
    if c.oldPort == c.newPort {
      assert !Touched(c, true, c.l4 + c.portOff);
    }
  }

  lemma AddrFromParts(w: Words, i: nat, a: Addr)
    requires i + 1 < |w| && w[i] == Hi(a) && w[i + 1] == Lo(a)
    ensures AddrAt(w, i) == a
  {
  }

  /** A rewrite of a complete packet succeeds. */
  lemma RewriteSucceeds(w: Words, len: nat, c: Rewrite, sctp: bool)
    requires |w| == WordCount(len) && IP_CSUM < c.addrOff && c.innerDiff == 0
    requires InBounds(len, c.l3 + c.addrOff, 2) && InBounds(len, c.l4 + c.portOff, 1)
    requires CsumField(c.proto).Some? ==> InBounds(len, c.l4 + CsumField(c.proto).value, 1)
    requires CsumField(c.proto).None? ==> c.oldPort == c.newPort
    ensures RewriteHeaders(w, len, c, sctp).r.Ok?
  {
    hide Amend, Diff;
  }

  // ---------------------------------------------------------------- replies

  /** `v` answers the translated packet `w1`: addresses and ports exchanged, or an echo reply with the same
      identifier. */
  ghost predicate RepliesTo(v: Words, vlen: nat, v3: nat, view: View, w1: Words, w3: nat, proto: U8, sctp: bool) {
    && FlowOf(v, vlen, v3, view, false, sctp) && w3 + IP_WORDS <= |w1|
    && Proto(v, v3) == proto
    && AddrAt(v, v3 + IP_DADDR) == AddrAt(w1, w3 + IP_SADDR)
    && AddrAt(v, v3 + IP_SADDR) == AddrAt(w1, w3 + IP_DADDR)
    && var v4, w4 := v3 + HdrWords(v, v3), w3 + HdrWords(w1, w3);
    && (if proto == IPPROTO_ICMP then w4 + ICMP_ID < |w1| && v[v4 + ICMP_ID] == w1[w4 + ICMP_ID]
        else w4 + 1 < |w1| && v4 + 1 < |v| && v[v4] == w1[w4 + 1] && v[v4 + 1] == w1[w4])
    && (CsumField(proto).Some? ==> InBounds(vlen, v4 + CsumField(proto).value, 1))
  }

  lemma AnswerKey(w: Words, len: nat, l3: nat, v: View, e: NatEntry, sctp: bool,
                  a: Words, alen: nat, a3: nat, av: View)
    requires FlowOf(w, len, l3, v, true, sctp)
    requires RewriteHeaders(w, len, FlowRewrite(w, l3, v, e), sctp).r.Ok?
    requires RepliesTo(a, alen, a3, av, RewriteHeaders(w, len, FlowRewrite(w, l3, v, e), sctp).w, l3, v.key.nexthdr,
                       sctp)
    ensures av.key == ReverseKey(v.key, e)
  {
    hide AddrAt, RewriteHeaders;
    FieldsAfter(w, len, l3, v, e, true, sctp);
  }

  /** The reply to a translated packet is rewritten to the original source address and port, and nothing but
      that address, that port and the checksums changes. */
  lemma ReplyRestored(m: Table, env: Env, k: Tuple, e: NatEntry, a: Words, alen: nat, a3: nat, av: View,
                      cfg: Config, target: NatTarget, tracked: Option<(Port, Port)>)
    requires FlowOf(a, alen, a3, av, false, cfg.sctp) && ParseIn(a, alen, a3, cfg, target, tracked) == Ok(av)
    requires k.flags == F_OUT && av.key == ReverseKey(k, e) && MapsBack(m, k, e)
    requires env.mapFound && env.ctOk && env.restoreOk
    requires var proto := Proto(a, a3); var a4 := a3 + HdrWords(a, a3);
             && (CsumField(proto).Some? ==> InBounds(alen, a4 + CsumField(proto).value, 1))
             && (CsumField(proto).None? ==> k.sport == e.port)
    ensures var n := NatIn(m, a, alen, a3, cfg, target, env, tracked);
            var a4 := a3 + HdrWords(a, a3);
            && n.r.Ok? && |n.w| == |a| && a4 + av.portOff < |a|
            && AddrAt(n.w, a3 + IP_DADDR) == k.saddr && n.w[a4 + av.portOff] == k.sport
            && AddrAt(n.w, a3 + IP_SADDR) == AddrAt(a, a3 + IP_SADDR)
            && (Proto(a, a3) != IPPROTO_ICMP ==> a4 < |a| && n.w[a4] == a[a4])
            && forall i :: 0 <= i < |a| && i != a3 + IP_CSUM && i != a3 + IP_DADDR && i != a3 + IP_DADDR + 1
                           && i != a4 + av.portOff
                           && !(CsumField(Proto(a, a3)).Some? && i == a4 + CsumField(Proto(a, a3)).value)
                 ==> n.w[i] == a[i]
  {
    hide AddrAt, RewriteHeaders, ParseIn, Moved, Hi, Lo, HdrWords;
    var back := m[av.key];
    var c := FlowRewrite(a, a3, av, back);
    FlowOfDescribes(a, alen, a3, av, false, cfg.sctp);
    RewriteSucceeds(a, alen, c, cfg.sctp);
    FieldsAfter(a, alen, a3, av, back, false, cfg.sctp);
    var w' := RewriteHeaders(a, alen, c, cfg.sctp).w;
    if Unchanged(c) {
      NoRewrite(a, alen, c, cfg.sctp);
    } else {
      FlowPlaced(a, a3, av, back);
      RewriteMeaning(a, alen, c, cfg.sctp);
    }
  }

  /** A reply within the port range is never skipped. */
  lemma ReplyParses(a: Words, alen: nat, a3: nat, av: View, cfg: Config, target: NatTarget,
                    tracked: Option<(Port, Port)>)
    requires FlowOf(a, alen, a3, av, false, cfg.sctp)
    requires if Proto(a, a3) == IPPROTO_ICMP then cfg.masquerade && !IsFragment(a, a3)
             else target.minPort <= av.key.dport <= target.maxPort
    ensures ParseIn(a, alen, a3, cfg, target, tracked) == Ok(av)
  {
    hide AddrAt;
  }

  /** The packet is translated: it carries its L4 header, is parsed as flow `v`, and the mapping used is `e`. */
  ghost predicate SentOut(m: Table, w: Words, len: nat, l3: nat, cfg: Config, target: NatTarget, env: Env,
                          tracked: Option<(Port, Port)>, v: View, m1: Table, w1: Words, e: NatEntry) {
    && |w| == WordCount(len) && InBounds(len, l3, IP_WORDS) && HdrWords(w, l3) >= IP_WORDS && HasL4Header(w, l3)
    && ParseOut(w, len, l3, cfg, target, tracked) == Ok(v) && v.Flow?
    && NatOut(m, w, len, l3, cfg, target, env, tracked) == Natted(m1, w1, Ok(()))
    && v.key in m1 && m1[v.key] == e
  }

  /** What the table and the packet are after that, and after any run that does not retarget the flow. */
  lemma SentOutMeaning(m: Table, w: Words, len: nat, l3: nat, cfg: Config, target: NatTarget, env: Env,
                       tracked: Option<(Port, Port)>, v: View, m1: Table, w1: Words, e: NatEntry, steps: seq<Step>)
    requires ForwardBacked(m) && SentOut(m, w, len, l3, cfg, target, env, tracked, v, m1, w1, e)
    requires forall i :: 0 <= i < |steps| ==> WellFormed(steps[i]) && SparesReplies(steps[i], v.key, e)
    ensures FlowOf(w, len, l3, v, true, cfg.sctp) && v.key.flags == F_OUT
    ensures RewriteHeaders(w, len, FlowRewrite(w, l3, v, e), cfg.sctp) == Outcome(w1, Ok(()))
    ensures ForwardBacked(m1) && MapsBack(Run(m1, steps), v.key, e)
  {
    hide AddrAt, RewriteHeaders, ParseOut, Outgoing, HdrWords, ForwardBacked, Run;
    ParseIsFlowOf(w, len, l3, cfg, target, tracked, true);
    FlowOfDescribes(w, len, l3, v, true, cfg.sctp);
    var t := TargetFor(target, v);
    OutgoingKeeps(m, v.key, t, env);
    OutgoingStores(m, v.key, t, env);
    BackedAnswers(m1, v.key);
    ReplyEntryIsStable(m1, steps, v.key, e);
  }

  lemma BackedAnswers(m: Table, k: Tuple)
    requires ForwardBacked(m) && k in m && k.flags == F_OUT
    ensures AnsweredBy(m, k, m[k])
  {
    assert HasReverse(m, k);
  }

  /** End to end. A packet of a flow is translated; then other packets come and go, and forward entries are evicted,
      in any way that does not retarget this flow; then a reply arrives. The reply is delivered to the sender's own
      address and port. */
  lemma SnatRoundTrip(m: Table, w: Words, len: nat, l3: nat, cfg: Config, target: NatTarget, env: Env,
                      tracked: Option<(Port, Port)>, v: View, m1: Table, w1: Words, e: NatEntry, steps: seq<Step>,
                      a: Words, alen: nat, a3: nat, av: View, target2: NatTarget, env2: Env)
    requires ForwardBacked(m) && SentOut(m, w, len, l3, cfg, target, env, tracked, v, m1, w1, e)
    requires forall i :: 0 <= i < |steps| ==> WellFormed(steps[i]) && SparesReplies(steps[i], v.key, e)
    requires RepliesTo(a, alen, a3, av, w1, l3, v.key.nexthdr, cfg.sctp)
    requires if v.key.nexthdr == IPPROTO_ICMP then cfg.masquerade && !IsFragment(a, a3)
             else target2.minPort <= target2.maxPort && PortsWithin(m1, target2.minPort, target2.maxPort)
    requires env2.mapFound && env2.ctOk && env2.restoreOk
    ensures var r := NatIn(Run(m1, steps), a, alen, a3, cfg, target2, env2, tracked);
            var a4, l4 := a3 + HdrWords(a, a3), l3 + HdrWords(w, l3);
            && r.r.Ok? && |r.w| == |a| && a4 + av.portOff < |a| && l4 + v.portOff < |w|
            && AddrAt(r.w, a3 + IP_DADDR) == AddrAt(w, l3 + IP_SADDR)
            && r.w[a4 + av.portOff] == w[l4 + v.portOff]
            && AddrAt(r.w, a3 + IP_SADDR) == AddrAt(w, l3 + IP_DADDR)
  {
    hide AddrAt, RewriteHeaders, ParseIn, Incoming, HdrWords, ForwardBacked, NatIn, NatOut, ParseOut, Run;
    SentOutMeaning(m, w, len, l3, cfg, target, env, tracked, v, m1, w1, e, steps);
    FieldsAfter(w, len, l3, v, e, true, cfg.sctp);
    AnswerKey(w, len, l3, v, e, cfg.sctp, a, alen, a3, av);
    ReplyParses(a, alen, a3, av, cfg, target2, tracked);
    ReplyRestored(Run(m1, steps), env2, v.key, e, a, alen, a3, av, cfg, target2, tracked);
  }

  // ---------------------------------------------------------------- ICMP errors

  /** The error packet `x` quotes, from word `j` to its end, the translated packet `w1` up to word `n`: at least
      its IP header and the first eight bytes behind it. */
  ghost predicate Quotes(x: Words, xlen: nat, j: nat, w1: Words, l3: nat, n: nat) {
    && |x| == WordCount(xlen) && l3 <= j && l3 + IP_WORDS <= n <= |w1|
    && l3 + HdrWords(w1, l3) + 4 <= n && n - l3 == xlen / 2 - j
    && forall i :: l3 <= i < n ==> x[i + (j - l3)] == w1[i]
  }

  function QuoteOf(w: Words, l3: nat, v: View, e: NatEntry, j: nat): Quote
    requires l3 < |w| && v.Flow?
  {
    Quote(v.key.nexthdr, j + HdrWords(w, l3), OtherKey(v.key, e),
          if v.key.flags == F_OUT then IP_SADDR else IP_DADDR, v.portOff)
  }

  lemma QuotedFields(x: Words, xlen: nat, j: nat, w1: Words, l3: nat, n: nat)
    requires Quotes(x, xlen, j, w1, l3, n) && HdrWords(w1, l3) >= IP_WORDS
    ensures InBounds(xlen, j, IP_WORDS) && j + IP_WORDS <= |x|
    ensures HdrWords(x, j) == HdrWords(w1, l3) && Proto(x, j) == Proto(w1, l3)
    ensures HasL4Header(x, j) == HasL4Header(w1, l3)
    ensures AddrAt(x, j + IP_SADDR) == AddrAt(w1, l3 + IP_SADDR)
    ensures AddrAt(x, j + IP_DADDR) == AddrAt(w1, l3 + IP_DADDR)
    ensures var x4, w4 := j + HdrWords(x, j), l3 + HdrWords(w1, l3);
            && InBounds(xlen, x4, 4) && x4 + 4 <= |x| && w4 + 4 <= |w1|
            && x[x4] == w1[w4] && x[x4 + 1] == w1[w4 + 1] && x[x4 + 2] == w1[w4 + 2] && x[x4 + 3] == w1[w4 + 3]
  {
    var d := j - l3;
    var w4 := l3 + HdrWords(w1, l3);
    assert x[l3 + d] == w1[l3];
    assert x[l3 + IP_PROTO + d] == w1[l3 + IP_PROTO] && x[l3 + IP_FRAG + d] == w1[l3 + IP_FRAG];
    assert x[l3 + IP_SADDR + d] == w1[l3 + IP_SADDR] && x[l3 + IP_SADDR + 1 + d] == w1[l3 + IP_SADDR + 1];
    assert x[l3 + IP_DADDR + d] == w1[l3 + IP_DADDR] && x[l3 + IP_DADDR + 1 + d] == w1[l3 + IP_DADDR + 1];
    assert x[w4 + d] == w1[w4] && x[w4 + 1 + d] == w1[w4 + 1];
    assert x[w4 + 2 + d] == w1[w4 + 2] && x[w4 + 3 + d] == w1[w4 + 3];
  }

  lemma QuoteReads(w: Words, len: nat, l3: nat, v: View, e: NatEntry, out: bool, sctp: bool,
                   x: Words, xlen: nat, j: nat, n: nat)
    requires FlowOf(w, len, l3, v, out, sctp)
    requires RewriteHeaders(w, len, FlowRewrite(w, l3, v, e), sctp).r.Ok?
    requires Quotes(x, xlen, j, RewriteHeaders(w, len, FlowRewrite(w, l3, v, e), sctp).w, l3, n)
    ensures ReadQuote(x, xlen, j, !out, sctp) == Ok(QuoteOf(w, l3, v, e, j))
    ensures HdrWords(RewriteHeaders(w, len, FlowRewrite(w, l3, v, e), sctp).w, l3) == HdrWords(w, l3)
  {
    hide AddrAt, RewriteHeaders, FlowRewrite;
    RewriteShape(w, l3, v, e);
    FieldsAfter(w, len, l3, v, e, out, sctp);
    var w1 := RewriteHeaders(w, len, FlowRewrite(w, l3, v, e), sctp).w;
    QuotedFields(x, xlen, j, w1, l3, n);
  }

  /** The rewrite of the quote is the inverse of the rewrite of the flow packet, moved to where the quote is. */
  lemma QuoteInverts(w: Words, l3: nat, v: View, e: NatEntry, back: NatEntry, j: nat, out: bool)
    requires l3 + IP_WORDS <= |w| && v.Flow? && v.key.flags == (if out then F_OUT else F_IN) && l3 <= j
    requires HasL4Header(w, l3) && back.addr == OwnAddr(v.key) && back.port == OwnPort(v.key)
    ensures var c := FlowRewrite(w, l3, v, e);
            QuoteRewrite(j, QuoteOf(w, l3, v, e, j), back) ==
            Inverse(c).(l3 := c.l3 + (j - l3), l4 := c.l4 + (j - l3))
  {
  }

  lemma QuoteHandled(w: Words, len: nat, l3: nat, v: View, e: NatEntry, out: bool, sctp: bool,
                     x: Words, xlen: nat, j: nat, n: nat, m: Table)
    requires FlowOf(w, len, l3, v, out, sctp) && MapsBack(m, v.key, e)
    requires RewriteHeaders(w, len, FlowRewrite(w, l3, v, e), sctp).r.Ok?
    requires Quotes(x, xlen, j, RewriteHeaders(w, len, FlowRewrite(w, l3, v, e), sctp).w, l3, n)
    ensures var h := HandleQuote(m, x, xlen, j, !out, sctp);
            h.r.Ok? && h.r.value.0 == m[OtherKey(v.key, e)]
    ensures j < |x| && HdrWords(x, j) == HdrWords(w, l3)
  {
    hide AddrAt, RewriteHeaders, ReadQuote, FlowRewrite, OuterDiff;
    RewriteShape(w, l3, v, e);
    var q := QuoteOf(w, l3, v, e, j);
    var back := m[q.key];
    FlowOfDescribes(w, len, l3, v, out, sctp);
    FieldsAfter(w, len, l3, v, e, out, sctp);
    QuoteReads(w, len, l3, v, e, out, sctp, x, xlen, j, n);
    var w1 := RewriteHeaders(w, len, FlowRewrite(w, l3, v, e), sctp).w;
    QuotedFields(x, xlen, j, w1, l3, n);
    var c := QuoteRewrite(j, q, back);
    if CsumQuoted(x, xlen, j, q) {
      RewriteSucceeds(x, xlen, c, sctp);
    } else {
      Truncated(x, xlen, c, sctp);
    }
  }

  lemma Truncated(x: Words, xlen: nat, c: Rewrite, sctp: bool)
    requires |x| == WordCount(xlen) && IP_CSUM < c.addrOff && c.proto == IPPROTO_TCP && c.hasL4 && c.innerDiff == 0
    requires InBounds(xlen, c.l3 + c.addrOff, 2) && InBounds(xlen, c.l4 + c.portOff, 1)
    requires !InBounds(xlen, c.l4 + TCP_CSUM, 1)
    ensures var r := RewriteHeaders(x, xlen, c, sctp).r; r.Ok? || r == Err(CsumL4)
  {
    hide Amend, Diff;
  }

  /** An ICMP error quoting the translated packet ends up quoting the packet as it was before translation, word
      for word: addresses, port or identifier, and every checksum that is quoted. Only a checksum that was
      0xFFFF comes back as the equivalent 0 (and a UDP checksum always comes back exactly). This holds for
      errors about outgoing packets and, with `out` false, for errors about replies. */
  lemma ErrorQuotesOriginal(w: Words, len: nat, l3: nat, v: View, e: NatEntry, out: bool, sctp: bool,
                            x: Words, xlen: nat, j: nat, n: nat, m: Table)
    requires FlowOf(w, len, l3, v, out, sctp) && MapsBack(m, v.key, e)
    requires RewriteHeaders(w, len, FlowRewrite(w, l3, v, e), sctp).r.Ok?
    requires Quotes(x, xlen, j, RewriteHeaders(w, len, FlowRewrite(w, l3, v, e), sctp).w, l3, n)
    ensures var h := HandleQuote(m, x, xlen, j, !out, sctp);
            && h.r.Ok? && |h.w| == |x|
            && (forall i :: 0 <= i < j ==> h.w[i] == x[i])
            && n <= |w| && var full := CsumQuoted(x, xlen, j, QuoteOf(w, l3, v, e, j));
            forall i :: l3 <= i < n ==> h.w[i + (j - l3)] == Restored(w, FlowRewrite(w, l3, v, e), full, i)
  {
    hide AddrAt, RewriteHeaders, HandleQuote, ReadQuote, Rewritten, FlowRewrite, OuterDiff, Restored;
    RewriteShape(w, l3, v, e);
    var c := FlowRewrite(w, l3, v, e);
    var w1 := RewriteHeaders(w, len, c, sctp).w;
    var q := QuoteOf(w, l3, v, e, j);
    var h := HandleQuote(m, x, xlen, j, !out, sctp);
    FlowOfDescribes(w, len, l3, v, out, sctp);
    FieldsAfter(w, len, l3, v, e, out, sctp);
    QuoteReads(w, len, l3, v, e, out, sctp, x, xlen, j, n);
    QuoteHandled(w, len, l3, v, e, out, sctp, x, xlen, j, n, m);
    QuoteLocal(m, x, xlen, j, !out, sctp);
    QuoteMeaning(m, x, xlen, j, !out, sctp);
    QuoteInverts(w, l3, v, e, m[q.key], j, out);
    FlowPlaced(w, l3, v, e);
    var full := CsumQuoted(x, xlen, j, q);
    forall i | l3 <= i < n
      ensures h.w[i + (j - l3)] == Restored(w, c, full, i)
    {
      if Unchanged(c) {
        NoRewrite(w, len, c, sctp);
        UnchangedRestored(w, c, full, i);
      } else {
        RewriteMeaning(w, len, c, sctp);
        UndoneWord(w, w1, x, h.w, c, j - l3, full, n, i);
      }
    }
  }

  lemma UnchangedRestored(w: Words, c: Rewrite, full: bool, i: nat)
    requires i < |w| && Unchanged(c)
    ensures Restored(w, c, full, i) == w[i]
  {
  }

  lemma RewriteShape(w: Words, l3: nat, v: View, e: NatEntry)
    requires l3 + IP_WORDS <= |w| && v.Flow? && HasL4Header(w, l3)
    ensures var c := FlowRewrite(w, l3, v, e);
            && c.innerDiff == 0 && c.l4 == l3 + HdrWords(w, l3) && c.l3 == l3 && c.proto == v.key.nexthdr && c.hasL4
            && (c.addrOff == IP_SADDR || c.addrOff == IP_DADDR)
  {
  }

  lemma OuterSucceeds(w: Words, len: nat, c: Rewrite, sctp: bool)
    requires |w| == WordCount(len) && IP_CSUM < c.addrOff && c.oldPort == c.newPort
    requires InBounds(len, c.l3 + c.addrOff, 2) && InBounds(len, c.l4 + ICMP_CSUM, 1) && c.proto == IPPROTO_ICMP
    ensures RewriteHeaders(w, len, c, sctp).r.Ok?
  {
    hide Amend, Diff;
  }

  /** The whole error packet: it is delivered to the endpoint the translated packet belongs to, still quoting
      that packet as the endpoint knows it. */
  lemma IcmpErrorRoundTrip(w: Words, len: nat, l3: nat, v: View, e: NatEntry, out: bool, sctp: bool,
                           x: Words, xlen: nat, x3: nat, n: nat, m: Table)
    requires FlowOf(w, len, l3, v, out, sctp) && MapsBack(m, v.key, e)
    requires RewriteHeaders(w, len, FlowRewrite(w, l3, v, e), sctp).r.Ok?
    requires |x| == WordCount(xlen) && InBounds(xlen, x3, IP_WORDS) && HdrWords(x, x3) >= IP_WORDS
    requires HasL4Header(x, x3)
    requires Quotes(x, xlen, x3 + HdrWords(x, x3) + ICMP_WORDS,
                    RewriteHeaders(w, len, FlowRewrite(w, l3, v, e), sctp).w, l3, n)
    ensures var j := x3 + HdrWords(x, x3) + ICMP_WORDS;
            var r := ErrorOut(m, x, xlen, x3, !out, sctp);
            && r.r.Ok? && r.m == m && |r.w| == |x|
            && AddrAt(r.w, x3 + (if out then IP_DADDR else IP_SADDR)) == OwnAddr(v.key)
            && n <= |w| && j < |x| && var full := CsumQuoted(x, xlen, j, QuoteOf(w, l3, v, e, j));
            forall i :: l3 <= i < n ==> r.w[i + (j - l3)] == Restored(w, FlowRewrite(w, l3, v, e), full, i)
  {
    hide AddrAt, RewriteHeaders, HandleQuote, ReadQuote, FlowRewrite, Restored, Moved, Hi, Lo;
    RewriteShape(w, l3, v, e);
    var j := x3 + HdrWords(x, x3) + ICMP_WORDS;
    ErrorQuotesOriginal(w, len, l3, v, e, out, sctp, x, xlen, j, n, m);
    QuoteHandled(w, len, l3, v, e, out, sctp, x, xlen, j, n, m);
    var h := HandleQuote(m, x, xlen, j, !out, sctp);
    var c := OuterRewrite(x, x3, !out, h.r.value.0, h.r.value.1);
    SameAddr(x, h.w, x3 + c.addrOff);
    OuterSucceeds(h.w, xlen, c, sctp);
    OuterLocal(h.w, xlen, c, sctp, j);
  }

  /** `r` is the error `x`, delivered to the sender of `w` and quoting `w` as far as `x` quotes its translation. */
  ghost predicate Explains(r: Natted, m: Table, x: Words, xlen: nat, x3: nat, w: Words, l3: nat, v: View, e: NatEntry,
                           n: nat)
    requires v.Flow? && l3 + IP_WORDS <= |w| && x3 + IP_WORDS <= |x|
  {
    var j := x3 + HdrWords(x, x3) + ICMP_WORDS;
    && r.r.Ok? && r.m == m && |r.w| == |x| == WordCount(xlen) && n <= |w| && l3 <= j < |x| && n + (j - l3) <= |x|
    && AddrAt(r.w, x3 + (if v.key.flags == F_OUT then IP_DADDR else IP_SADDR)) == OwnAddr(v.key)
    && var full := CsumQuoted(x, xlen, j, QuoteOf(w, l3, v, e, j));
    forall i :: l3 <= i < n ==> r.w[i + (j - l3)] == Restored(w, FlowRewrite(w, l3, v, e), full, i)
  }

  /** End to end for errors about outgoing packets. A packet is translated, other packets come and go, and then an
      ICMP error quotes the translated packet: the sender gets the error, quoting the packet it sent. */
  lemma ErrorReachesSender(m: Table, w: Words, len: nat, l3: nat, cfg: Config, target: NatTarget, env: Env,
                           tracked: Option<(Port, Port)>, v: View, m1: Table, w1: Words, e: NatEntry, steps: seq<Step>,
                           x: Words, xlen: nat, x3: nat, n: nat, target2: NatTarget, env2: Env)
    requires ForwardBacked(m) && SentOut(m, w, len, l3, cfg, target, env, tracked, v, m1, w1, e)
    requires forall i :: 0 <= i < |steps| ==> WellFormed(steps[i]) && SparesReplies(steps[i], v.key, e)
    requires |x| == WordCount(xlen) && InBounds(xlen, x3, IP_WORDS) && HdrWords(x, x3) >= IP_WORDS
    requires ParseIn(x, xlen, x3, cfg, target2, tracked) == Ok(IcmpError)
    requires Quotes(x, xlen, x3 + HdrWords(x, x3) + ICMP_WORDS, w1, l3, n)
    ensures var m2 := Run(m1, steps);
            Explains(NatIn(m2, x, xlen, x3, cfg, target2, env2, tracked), m2, x, xlen, x3, w, l3, v, e, n)
  {
    hide AddrAt, RewriteHeaders, ErrorOut, HdrWords, ForwardBacked, NatOut, ParseOut, Run, Restored, FlowRewrite;
    SentOutMeaning(m, w, len, l3, cfg, target, env, tracked, v, m1, w1, e, steps);
    ErrorIsWhole(x, xlen, x3, cfg, target2, tracked, false);
    IcmpErrorRoundTrip(w, len, l3, v, e, true, cfg.sctp, x, xlen, x3, n, Run(m1, steps));
  }

  /** Errors the engine handles are not fragments. */
  lemma ErrorIsWhole(x: Words, xlen: nat, x3: nat, cfg: Config, target: NatTarget, tracked: Option<(Port, Port)>,
                     out: bool)
    requires |x| == WordCount(xlen) && InBounds(xlen, x3, IP_WORDS)
    requires (if out then ParseOut(x, xlen, x3, cfg, target, tracked) else ParseIn(x, xlen, x3, cfg, target, tracked))
             == Ok(IcmpError)
    ensures HasL4Header(x, x3)
  {
    hide AddrAt, LoadPorts;
    assert !IsFragment(x, x3);
  }

  /** End to end for errors about replies. A reply of flow `k` is translated, other packets come and go without
      evicting or retargeting the flow, and then the endpoint sends an ICMP error about that reply: the peer gets
      the error, quoting the reply as the peer sent it. */
  lemma ErrorReachesPeer(m: Table, a: Words, alen: nat, a3: nat, cfg: Config, target: NatTarget, env: Env,
                         tracked: Option<(Port, Port)>, v: View, k: Tuple, m1: Table, a1: Words, steps: seq<Step>,
                         x: Words, xlen: nat, x3: nat, n: nat, target2: NatTarget, env2: Env)
    requires ForwardBacked(m) && k in m && k.flags == F_OUT
    requires |a| == WordCount(alen) && InBounds(alen, a3, IP_WORDS) && HdrWords(a, a3) >= IP_WORDS && HasL4Header(a, a3)
    requires ParseIn(a, alen, a3, cfg, target, tracked) == Ok(v) && v.Flow? && v.key == ReverseKey(k, m[k])
    requires NatIn(m, a, alen, a3, cfg, target, env, tracked) == Natted(m1, a1, Ok(()))
    requires forall i :: 0 <= i < |steps| ==> WellFormed(steps[i]) && Spares(steps[i], k, m[k])
    requires |x| == WordCount(xlen) && InBounds(xlen, x3, IP_WORDS) && HdrWords(x, x3) >= IP_WORDS
    requires ParseOut(x, xlen, x3, cfg, target2, tracked) == Ok(IcmpError)
    requires Quotes(x, xlen, x3 + HdrWords(x, x3) + ICMP_WORDS, a1, a3, n)
    ensures v.key in m
    ensures var m2 := Run(m1, steps);
            Explains(NatOut(m2, x, xlen, x3, cfg, target2, env2, tracked), m2, x, xlen, x3, a, a3, v, m[v.key], n)
  {
    hide AddrAt, RewriteHeaders, ErrorOut, HdrWords, ForwardBacked, Run, Restored, FlowRewrite, LoadPorts;
    ParseIsFlowOf(a, alen, a3, cfg, target, tracked, false);
    BackedAnswers(m, k);
    assert ForwardKey(v.key, m[v.key]) == k;
    assert m1 == m;
    TranslationIsStable(m, steps, k);
    ErrorIsWhole(x, xlen, x3, cfg, target2, tracked, true);
    IcmpErrorRoundTrip(a, alen, a3, v, m[v.key], false, cfg.sctp, x, xlen, x3, n, Run(m1, steps));
  }

  lemma OuterLocal(w: Words, len: nat, c: Rewrite, sctp: bool, j: nat)
    requires |w| == WordCount(len) && WellPlaced(w, c) && c.proto == IPPROTO_ICMP && c.oldPort == c.newPort
    requires RewriteHeaders(w, len, c, sctp).r.Ok? && c.l4 + ICMP_WORDS <= j
    ensures var w' := RewriteHeaders(w, len, c, sctp).w;
            && |w'| == |w| && AddrAt(w', c.l3 + c.addrOff) == c.newAddr
            && forall i :: j <= i < |w| ==> w'[i] == w[i]
  {
    hide AddrAt, RewriteHeaders, Moved, Hi, Lo;
    var w' := RewriteHeaders(w, len, c, sctp).w;
    if Unchanged(c) {
      NoRewrite(w, len, c, sctp);
    } else {
      RewriteMeaning(w, len, c, sctp);
      AddrFromParts(w', c.l3 + c.addrOff, c.newAddr);
    }
  }
}
