/** SNAT of whole packets: parsing, the mapping table, and rewriting of the packet and of the packet quoted in
    an ICMP error. */
module SnatPacket {
  import opened Net
  import opened Checksum
  import opened PacketBuffer
  import opened SnatTable

  datatype Config = Config(
    sctp: bool,
    fragments: bool,             // fragment tracking
    masquerade: bool,            // masquerading, or inter-cluster SNAT
    egressHost: bool,            // egress gateway in the host program
    natMin: nat,                 // nodeport_port_max + 1
    natExtMin: Port, natExtMax: Port)

  const NR_ICMP_UNREACH: U8 := 15

  /** is_port_in_nat_range */
  predicate InNatRange(cfg: Config, port: Port) {
    cfg.natMin <= port || (cfg.natExtMax != 0 && cfg.natExtMin <= port <= cfg.natExtMax)
  }

  /** snat_v4_nat_can_skip */
  predicate CanSkipOut(cfg: Config, target: NatTarget, sport: Port) {
    !(cfg.egressHost && target.egressGateway) && !target.fromLocalEndpoint && !InNatRange(cfg, sport)
  }

  /** snat_v4_rev_nat_can_skip */
  predicate CanSkipIn(target: NatTarget, dport: Port) {
    dport < target.minPort || target.maxPort < dport
  }

  /** Source and destination port of a packet (ipv4_load_l4_ports); `tracked` is the fragment tracker's answer
      for a fragment without L4 header. */
  function LoadPorts(w: Words, len: nat, l3: nat, l4: nat, cfg: Config, tracked: Option<(Port, Port)>)
    : Result<(Port, Port)>
    requires |w| == WordCount(len) && l3 + IP_WORDS <= |w|
  {
    if !HasL4Header(w, l3) then
      if !cfg.fragments then Err(FragNoSupport)
      else if tracked.None? then Err(FragNotFound)
      else Ok(tracked.value)
    else if !InBounds(len, l4, 2) then Err(InvalidHdr)
    else Ok((w[l4], w[l4 + 1]))
  }

  /** What a packet is to the NAT engine: a flow packet with its table key, or an ICMP error. */
  datatype View = Flow(key: Tuple, portOff: nat) | IcmpError

  function ParseOut(w: Words, len: nat, l3: nat, cfg: Config, target: NatTarget, tracked: Option<(Port, Port)>)
    : Result<View>
    requires |w| == WordCount(len) && InBounds(len, l3, IP_WORDS)
  {
    var l4 := l3 + HdrWords(w, l3);
    var proto, saddr, daddr := Proto(w, l3), AddrAt(w, l3 + IP_SADDR), AddrAt(w, l3 + IP_DADDR);
    if PortProto(proto, cfg.sctp) then
      if !cfg.fragments && IsFragment(w, l3) then Err(FragNoSupport)
      else match LoadPorts(w, len, l3, l4, cfg, tracked)
        case Err(e) => Err(e)
        case Ok((sport, dport)) =>
          if CanSkipOut(cfg, target, sport) then Err(PuntToStack)
          else Ok(Flow(Tuple(daddr, saddr, dport, sport, proto, F_OUT), L4_SPORT))
    else if proto == IPPROTO_ICMP then
      if !cfg.masquerade then Err(PuntToStack)
      else if IsFragment(w, l3) || !InBounds(len, l4, ICMP_WORDS) then Err(Invalid)
      else
        var kind, code := w[l4] / 0x100, w[l4] % 0x100;
        if kind == ICMP_ECHO then Ok(Flow(Tuple(daddr, saddr, 0, w[l4 + ICMP_ID], proto, F_OUT), ICMP_ID))
        else if kind == ICMP_ECHOREPLY || kind == ICMP_REDIRECT then Err(PuntToStack)
        else if kind == ICMP_DEST_UNREACH then if code <= NR_ICMP_UNREACH then Ok(IcmpError) else Err(UnknownIcmpCode)
        else if kind == ICMP_TIME_EXCEEDED then if code <= 1 then Ok(IcmpError) else Err(UnknownIcmpCode)
        else Err(UnsuppProto)
    else Err(PuntToStack)
  }

  function ParseIn(w: Words, len: nat, l3: nat, cfg: Config, target: NatTarget, tracked: Option<(Port, Port)>)
    : Result<View>
    requires |w| == WordCount(len) && InBounds(len, l3, IP_WORDS)
  {
    var l4 := l3 + HdrWords(w, l3);
    var proto, saddr, daddr := Proto(w, l3), AddrAt(w, l3 + IP_SADDR), AddrAt(w, l3 + IP_DADDR);
    if PortProto(proto, cfg.sctp) then
      match LoadPorts(w, len, l3, l4, cfg, tracked)
      case Err(e) => Err(e)
      case Ok((sport, dport)) =>
        if CanSkipIn(target, dport) then Err(PuntToStack)
        else Ok(Flow(Tuple(daddr, saddr, dport, sport, proto, F_IN), L4_DPORT))
    else if proto == IPPROTO_ICMP then
      if !cfg.masquerade then Err(PuntToStack)
      else if IsFragment(w, l3) || !InBounds(len, l4, ICMP_WORDS) then Err(Invalid)
      else
        var kind, code := w[l4] / 0x100, w[l4] % 0x100;
        if kind == ICMP_ECHOREPLY then Ok(Flow(Tuple(daddr, saddr, w[l4 + ICMP_ID], 0, proto, F_IN), ICMP_ID))
        else if kind == ICMP_DEST_UNREACH && code <= NR_ICMP_UNREACH then Ok(IcmpError)
        else if kind == ICMP_TIME_EXCEEDED && code <= 1 then Ok(IcmpError)
        else Err(PuntToStack)
    else Err(PuntToStack)
  }

  // ---------------------------------------------------------------- quoted packets

  /** The packet quoted by an ICMP error, as far as NAT cares. `key` is its table key, `addrOff`/`portOff` the
      fields to translate. */
  datatype Quote = Quote(proto: U8, l4: nat, key: Tuple, addrOff: nat, portOff: nat) {

    function OldAddr(): Addr { if key.flags == F_OUT then key.saddr else key.daddr }
    function OldPort(): Port { if key.flags == F_OUT then key.sport else key.dport }
  }

  /** The parsing half of both ICMP-error handlers. An outgoing error quotes a packet that came in (its
      destination was translated), an incoming one quotes a packet that went out (its source was). */
  function ReadQuote(w: Words, len: nat, j: nat, out: bool, sctp: bool): (r: Result<Quote>)
    requires |w| == WordCount(len)
    ensures r.Ok? ==> InBounds(len, j, IP_WORDS) && InBounds(len, r.value.l4, r.value.portOff + 1)
    ensures r.Ok? ==> r.value.addrOff == if out then IP_DADDR else IP_SADDR
  {
    if !InBounds(len, j, IP_WORDS) then Err(Invalid)
    else
      var l4 := j + HdrWords(w, j);
      var proto := Proto(w, j);
      var key := Tuple(AddrAt(w, j + IP_SADDR), AddrAt(w, j + IP_DADDR), 0, 0, proto, if out then F_OUT else F_IN);
      var addrOff := if out then IP_DADDR else IP_SADDR;
      if PortProto(proto, sctp) then
        if !HasL4Header(w, j) || !InBounds(len, l4, 2) then Err(Invalid)
        else Ok(Quote(proto, l4, key.(dport := w[l4], sport := w[l4 + 1]), addrOff,
                      if out then L4_DPORT else L4_SPORT))
      else if proto == IPPROTO_ICMP then
        if 2 * l4 + 1 > len then Err(Invalid)
        else
          var kind := w[l4] / 0x100;
          if kind == (if out then ICMP_ECHO else ICMP_ECHOREPLY) then Err(PuntToStack)
          else if kind != (if out then ICMP_ECHOREPLY else ICMP_ECHO) then Err(UnknownIcmpCode)
          else if !InBounds(len, l4, ICMP_ID + 1) then Err(Invalid)
          else
            var id := w[l4 + ICMP_ID];
            Ok(Quote(proto, l4, if out then key.(sport := id) else key.(dport := id), addrOff, ICMP_ID))
      else Err(if out then UnknownL4 else PuntToStack)
  }

  /** snat_v4_calc_icmp_error_csum_diff */
  function IcmpErrorDiff(oldAddr: Addr, newAddr: Addr, oldPort: Port, newPort: Port, innerHasCsum: bool): U32 {
    if innerHasCsum then if oldAddr != newAddr then Diff(newAddr, oldAddr) else 0
    else if oldPort != newPort then Diff(oldPort, newPort) else 0
  }

  /** The quoted TCP header reaches past its checksum. */
  predicate CsumQuoted(w: Words, len: nat, j: nat, q: Quote)
    requires |w| == WordCount(len) && j < |w|
  {
    q.proto == IPPROTO_TCP ==> 2 * j + 2 * HdrWords(w, j) + 2 * TCP_CSUM + 2 <= len
  }

  function QuoteRewrite(j: nat, q: Quote, e: NatEntry): Rewrite {
    Rewrite(q.proto, j, true, q.l4, q.addrOff, q.OldAddr(), e.addr, q.portOff, q.OldPort(), e.port, 0)
  }

  datatype Handled = Handled(w: Words, r: Result<(NatEntry, U32)>)

  function OuterDiff(w: Words, len: nat, j: nat, q: Quote, e: NatEntry): U32
    requires |w| == WordCount(len) && j < |w|
    requires q.proto == IPPROTO_UDP ==> q.l4 + UDP_CSUM < |w|
  {
    if q.proto == IPPROTO_ICMP || q.proto == IPPROTO_SCTP then 0
    else
      IcmpErrorDiff(q.OldAddr(), e.addr, q.OldPort(), e.port,
                    CsumQuoted(w, len, j, q) && (q.proto == IPPROTO_UDP ==> w[q.l4 + UDP_CSUM] != 0))
  }

  /** snat_v4_nat_handle_icmp_error (out) and snat_v4_rev_nat_handle_icmp_error (in); `j` is the offset of the
      quoted IP header. */
  function HandleQuote(m: Table, w: Words, len: nat, j: nat, out: bool, sctp: bool): (h: Handled)
    requires |w| == WordCount(len)
  {
    match ReadQuote(w, len, j, out, sctp)
    case Err(e) => Handled(w, Err(e))
    case Ok(q) =>
      if q.key !in m then Handled(w, Err(PuntToStack))
      else if q.proto == IPPROTO_UDP && !InBounds(len, q.l4 + UDP_CSUM, 1) then Handled(w, Err(Invalid))
      else
        var e := m[q.key];
        var o := RewriteHeaders(w, len, QuoteRewrite(j, q, e), sctp);
        if o.r.Ok? || (!CsumQuoted(w, len, j, q) && o.r == Err(CsumL4)) then
          Handled(o.w, Ok((e, OuterDiff(w, len, j, q, e))))
        else Handled(o.w, Err(o.r.error))
  }

  lemma HandleKeepsLength(m: Table, w: Words, len: nat, j: nat, out: bool, sctp: bool)
    requires |w| == WordCount(len)
    ensures |HandleQuote(m, w, len, j, out, sctp).w| == |w|
  {
    hide Amend, Diff, RewriteHeaders, OuterDiff;
    var q := ReadQuote(w, len, j, out, sctp);
    if q.Ok? && q.value.key in m {
      RewriteKeepsLength(w, len, QuoteRewrite(j, q.value, m[q.value.key]), sctp);
    }
  }

  // ---------------------------------------------------------------- whole packets

  datatype Natted = Natted(m: Table, w: Words, r: Result<()>)

  /** The identifier of an echo is not clamped. */
  function TargetFor(target: NatTarget, v: View): NatTarget {
    if v.Flow? && v.key.nexthdr == IPPROTO_ICMP then target.(minPort := 0, maxPort := 0xFFFF) else target
  }

  function FlowRewrite(w: Words, l3: nat, v: View, e: NatEntry): Rewrite
    requires l3 + IP_WORDS <= |w| && v.Flow?
  {
    var k := v.key;
    var l4 := l3 + HdrWords(w, l3);
    if k.flags == F_OUT then
      Rewrite(k.nexthdr, l3, HasL4Header(w, l3), l4, IP_SADDR, k.saddr, e.addr, v.portOff, k.sport, e.port, 0)
    else
      Rewrite(k.nexthdr, l3, HasL4Header(w, l3), l4, IP_DADDR, k.daddr, e.addr, v.portOff, k.dport, e.port, 0)
  }

  /** The outer header of an ICMP error: the translated address, no port, and the quote's difference. */
  function OuterRewrite(w: Words, l3: nat, out: bool, e: NatEntry, diff: U32): Rewrite
    requires l3 + IP_WORDS <= |w|
  {
    var addrOff := if out then IP_SADDR else IP_DADDR;
    Rewrite(IPPROTO_ICMP, l3, HasL4Header(w, l3), l3 + HdrWords(w, l3), addrOff, AddrAt(w, l3 + addrOff), e.addr,
            0, 0, 0, diff)
  }

  function ErrorOut(m: Table, w: Words, len: nat, l3: nat, out: bool, sctp: bool): Natted
    requires |w| == WordCount(len) && InBounds(len, l3, IP_WORDS)
  {
    var h := HandleQuote(m, w, len, l3 + HdrWords(w, l3) + ICMP_WORDS, out, sctp);
    HandleKeepsLength(m, w, len, l3 + HdrWords(w, l3) + ICMP_WORDS, out, sctp);
    match h.r
    case Err(e) => Natted(m, h.w, Err(e))
    case Ok((e, diff)) =>
      var o := RewriteHeaders(h.w, len, OuterRewrite(w, l3, out, e, diff), sctp);
      Natted(m, o.w, o.r)
  }

  /** snat_v4_nat */
  function NatOut(m: Table, w: Words, len: nat, l3: nat, cfg: Config, target: NatTarget, env: Env,
                  tracked: Option<(Port, Port)>): Natted
    requires |w| == WordCount(len)
  {
    if !InBounds(len, l3, IP_WORDS) then Natted(m, w, Err(Invalid))
    else match ParseOut(w, len, l3, cfg, target, tracked)
      case Err(e) => Natted(m, w, Err(e))
      case Ok(IcmpError) => ErrorOut(m, w, len, l3, true, cfg.sctp)
      case Ok(Flow(key, portOff)) =>
        var v := Flow(key, portOff);
        var (m', r) := Outgoing(m, key, TargetFor(target, v), env);
        match r
        case Err(e) => Natted(m', w, Err(e))
        case Ok(e) =>
          var o := RewriteHeaders(w, len, FlowRewrite(w, l3, v, e), cfg.sctp);
          Natted(m', o.w, o.r)
  }

  /** snat_v4_rev_nat */
  function NatIn(m: Table, w: Words, len: nat, l3: nat, cfg: Config, target: NatTarget, env: Env,
                 tracked: Option<(Port, Port)>): Natted
    requires |w| == WordCount(len)
  {
    if !InBounds(len, l3, IP_WORDS) then Natted(m, w, Err(Invalid))
    else match ParseIn(w, len, l3, cfg, target, tracked)
      case Err(e) => Natted(m, w, Err(e))
      case Ok(IcmpError) => ErrorOut(m, w, len, l3, false, cfg.sctp)
      case Ok(Flow(key, portOff)) =>
        var v := Flow(key, portOff);
        var (m', r) := Incoming(m, key, env);
        match r
        case Err(e) => Natted(m', w, Err(e))
        case Ok(e) =>
          var o := RewriteHeaders(w, len, FlowRewrite(w, l3, v, e), cfg.sctp);
          Natted(m', o.w, o.r)
  }

  /** The NAT programs as the source runs them: editing the shared table and the packet in place. */
  class Snat {
    const nats: SnatMap

    constructor (nats: SnatMap)
      ensures this.nats == nats
    {
      this.nats := nats;
    }

    method HandleError(p: Packet, l3: nat, out: bool, sctp: bool) returns (r: Result<()>)
      requires p.Valid() && InBounds(p.len, l3, IP_WORDS)
      modifies p.buf
      ensures Natted(nats.table, p.buf[..], r) == ErrorOut(old(nats.table), old(p.buf[..]), p.len, l3, out, sctp)
    {
      hide Amend, Diff, RewriteHeaders, OuterDiff, ReadQuote, AddrAt;
      var w := p.buf[..];
      var j := l3 + HdrWords(w, l3) + ICMP_WORDS;
      var parsed := ReadQuote(w, p.len, j, out, sctp);
      if parsed.Err? { return Err(parsed.error); }
      var q := parsed.value;
      if q.key !in nats.table { return Err(PuntToStack); }
      if q.proto == IPPROTO_UDP && !InBounds(p.len, q.l4 + UDP_CSUM, 1) { return Err(Invalid); }
      var state := nats.table[q.key];
      var diff := OuterDiff(w, p.len, j, q, state);
      r := p.RewriteBoth(QuoteRewrite(j, q, state), sctp);
      if !CsumQuoted(w, p.len, j, q) && r == Err(CsumL4) { r := Ok(()); }
      if r.Err? { return; }
      r := p.RewriteBoth(OuterRewrite(w, l3, out, state, diff), sctp);
    }

    /** snat_v4_nat */
    method Nat(p: Packet, l3: nat, cfg: Config, target: NatTarget, env: Env, tracked: Option<(Port, Port)>)
      returns (r: Result<()>)
      requires p.Valid()
      modifies p.buf, nats
      ensures Natted(nats.table, p.buf[..], r) ==
              NatOut(old(nats.table), old(p.buf[..]), p.len, l3, cfg, target, env, tracked)
      ensures ForwardBacked(old(nats.table)) ==> ForwardBacked(nats.table)
    {
      hide Amend, Diff, RewriteHeaders, AddrAt, Outgoing, ForwardBacked;
      if !InBounds(p.len, l3, IP_WORDS) { return Err(Invalid); }
      var w := p.buf[..];
      var parsed := ParseOut(w, p.len, l3, cfg, target, tracked);
      if parsed.Err? { return Err(parsed.error); }
      var v := parsed.value;
      if v.IcmpError? {
        r := HandleError(p, l3, true, cfg.sctp);
        return;
      }
      assert v.key.flags == F_OUT;
      var state := nats.HandleOutgoing(v.key, TargetFor(target, v), env);
      if state.Err? { return Err(state.error); }
      r := p.RewriteBoth(FlowRewrite(w, l3, v, state.value), cfg.sctp);
    }

    /** snat_v4_rev_nat */
    method RevNat(p: Packet, l3: nat, cfg: Config, target: NatTarget, env: Env, tracked: Option<(Port, Port)>)
      returns (r: Result<()>)
      requires p.Valid()
      modifies p.buf, nats
      ensures Natted(nats.table, p.buf[..], r) ==
              NatIn(old(nats.table), old(p.buf[..]), p.len, l3, cfg, target, env, tracked)
      ensures ForwardBacked(old(nats.table)) ==> ForwardBacked(nats.table)
    {
      hide Amend, Diff, RewriteHeaders, AddrAt, Incoming, ForwardBacked;
      if !InBounds(p.len, l3, IP_WORDS) { return Err(Invalid); }
      var w := p.buf[..];
      var parsed := ParseIn(w, p.len, l3, cfg, target, tracked);
      if parsed.Err? { return Err(parsed.error); }
      var v := parsed.value;
      if v.IcmpError? {
        r := HandleError(p, l3, false, cfg.sctp);
        return;
      }
      assert v.key.flags == F_IN;
      var state := nats.HandleIncoming(v.key, env);
      if state.Err? { return Err(state.error); }
      r := p.RewriteBoth(FlowRewrite(w, l3, v, state.value), cfg.sctp);
    }
  }
}
