/** Service translation of packets: DNAT of a request to its backend, and reverse DNAT of the backend's reply. */
module ServiceXlate {
  import opened Net
  import opened Checksum
  import opened Conntrack
  import opened LoadBalancer
  import opened PacketBuffer

  /** struct lb4_reverse_nat: the frontend to show to the client. */
  datatype RevNat = RevNat(address: Addr, port: Port)

  datatype Options = Options(loopbackAddr: Addr, sctp: bool)

  datatype Translated = Translated(w: Words, tuple: Tuple, r: Result<()>)

  datatype Addressed = Addressed(o: Outcome, sum: U32)

  /** The address part common to both directions: destination first, then source, then the header checksum.
      `sum` is the checksum difference of the changes made. */
  function ChangeAddrs(w: Words, len: nat, l3: nat, t: Tuple, newDaddr: Option<Addr>, newSaddr: Option<Addr>)
    : (r: Addressed)
    requires |w| == WordCount(len) && (newDaddr.Some? || newSaddr.Some?)
    ensures |r.o.w| == |w|
  {
    if newDaddr.Some? && !InBounds(len, l3 + IP_DADDR, 2) then Addressed(Outcome(w, Err(WriteError)), 0)
    else
      var w1 := if newDaddr.Some? then SetAddr(w, l3 + IP_DADDR, newDaddr.value) else w;
      var sum := if newDaddr.Some? then Diff(t.daddr, newDaddr.value) else 0;
      if newSaddr.Some? && !InBounds(len, l3 + IP_SADDR, 2) then Addressed(Outcome(w1, Err(WriteError)), sum)
      else
        var w2 := if newSaddr.Some? then SetAddr(w1, l3 + IP_SADDR, newSaddr.value) else w1;
        var sum2 := if newSaddr.Some? then Add(sum, Diff(t.saddr, newSaddr.value)) else sum;
        Addressed(Outcome(w2[l3 + IP_CSUM := Amend(w2[l3 + IP_CSUM], sum2, false)], Ok(())), sum2)
  }

  /** Amends a checksum over the pseudo header by the address difference. */
  function AmendPseudo(w: Words, len: nat, proto: U8, l4: nat, sum: U32): (o: Outcome)
    requires |w| == WordCount(len)
    ensures |o.w| == |w|
  {
    if PseudoCsum(proto).Some? then AmendAt(w, len, l4 + PseudoCsum(proto).value, sum, proto == IPPROTO_UDP)
    else Outcome(w, Ok(()))
  }

  /** csum_offset.offset, 0 for protocols without pseudo header checksum. */
  function CsumOffset(proto: U8): nat {
    if PseudoCsum(proto).Some? then PseudoCsum(proto).value else 0
  }

  /** lb_l4_xlate */
  function XlatePort(w: Words, len: nat, proto: U8, l4: nat, dport: Port, backendPort: Port, sctp: bool): Outcome
    requires |w| == WordCount(len)
  {
    if backendPort == 0 || dport == backendPort then Outcome(w, Ok(()))
    else if sctp && proto == IPPROTO_SCTP then Outcome(w, Err(CsumL4))
    else ModifyPort(w, len, l4 + L4_DPORT, l4 + CsumOffset(proto), proto == IPPROTO_UDP, dport, backendPort)
  }

  /** lb4_dnat_request. The tuple has the ports of the packet exchanged. */
  function DnatRequest(w: Words, len: nat, l3: nat, l4: nat, t: Tuple, backend: Backend, loopback: bool, hasL4: bool,
                       opt: Options): Translated
    requires |w| == WordCount(len)
  {
    var t1 := if loopback then t else t.(daddr := backend.address);
    var t2 := if backend.port != 0 then t1.(sport := backend.port) else t1;
    var newSaddr := if loopback && opt.loopbackAddr != 0 then Some(opt.loopbackAddr) else None;
    var a := ChangeAddrs(w, len, l3, t, Some(backend.address), newSaddr);
    if a.o.r.Err? || !hasL4 then Translated(a.o.w, t2, a.o.r)
    else
      var b := AmendPseudo(a.o.w, len, t.nexthdr, l4, a.sum);
      if b.r.Err? then Translated(b.w, t2, b.r)
      else
        var c := XlatePort(b.w, len, t.nexthdr, l4, t.sport, backend.port, opt.sctp);
        Translated(c.w, t2, c.r)
  }

  /** reverse_map_l4_port */
  function ReversePort(w: Words, len: nat, proto: U8, l4: nat, oldPort: Port, port: Port, sctp: bool): Outcome
    requires |w| == WordCount(len)
  {
    if proto == IPPROTO_TCP || proto == IPPROTO_UDP || (proto == IPPROTO_SCTP && sctp) then
      if port == 0 || port == oldPort then Outcome(w, Ok(()))
      else if proto == IPPROTO_SCTP then Outcome(w, Err(CsumL4))
      else ModifyPort(w, len, l4 + L4_SPORT, l4 + CsumOffset(proto), proto == IPPROTO_UDP, oldPort, port)
    else Outcome(w, if proto == IPPROTO_ICMP then Ok(()) else Err(UnknownL4))
  }

  /** __lb4_rev_nat. The reply's source port is the tuple's dport. */
  function RevXlate(w: Words, len: nat, l3: nat, l4: nat, t: Tuple, nat4: RevNat, loopback: bool, hasL4: bool,
                    opt: Options): Translated
    requires |w| == WordCount(len)
  {
    var t1 := if loopback && InBounds(len, l3 + IP_DADDR, 2) then t else t.(saddr := nat4.address);
    var a := ChangeAddrs(w, len, l3, t, if loopback then Some(t.saddr) else None, Some(nat4.address));
    if a.o.r.Err? || !hasL4 then Translated(a.o.w, t1, a.o.r)
    else
      var b := if nat4.port != 0 then ReversePort(a.o.w, len, t.nexthdr, l4, t.dport, nat4.port, opt.sctp) else a.o;
      if b.r.Err? then Translated(b.w, t1, b.r)
      else
        var c := AmendPseudo(b.w, len, t.nexthdr, l4, a.sum);
        Translated(c.w, t1, c.r)
  }

  /** The frontend of a reply: stored in the connection itself (wildcard services), or found by its index. */
  function FrontendOf(revNat: map<U16, RevNat>, s: Info): Option<RevNat> {
    if s.natPort != 0 then Some(RevNat(s.natAddr, s.natPort))
    else if s.revNatIndex in revNat then Some(revNat[s.revNatIndex])
    else None
  }

  /** lb4_rev_nat for the connection state `s`. */
  function RevNatReply(w: Words, len: nat, l3: nat, l4: nat, t: Tuple, revNat: map<U16, RevNat>, s: Info, hasL4: bool,
                       opt: Options): Translated
    requires |w| == WordCount(len)
  {
    match FrontendOf(revNat, s)
    case None => Translated(w, t, Ok(()))
    case Some(nat4) => RevXlate(w, len, l3, l4, t, nat4, s.loopback, hasL4, opt)
  }

  // ---------------------------------------------------------------- in place

  /** The address stores shared by lb4_xlate and __lb4_rev_nat. */
  method StoreAddrs(p: Packet, l3: nat, t: Tuple, newDaddr: Option<Addr>, newSaddr: Option<Addr>)
    returns (r: Result<()>, sum: U32)
    requires p.Valid() && (newDaddr.Some? || newSaddr.Some?)
    modifies p.buf
    ensures Addressed(Outcome(p.buf[..], r), sum) == ChangeAddrs(old(p.buf[..]), p.len, l3, t, newDaddr, newSaddr)
  {
    hide Amend, Diff, Add;
    sum := 0;
    if newDaddr.Some? {
      var ok := p.StoreAddr(l3 + IP_DADDR, newDaddr.value);
      if !ok { return Err(WriteError), sum; }
      sum := Diff(t.daddr, newDaddr.value);
    }
    if newSaddr.Some? {
      var ok := p.StoreAddr(l3 + IP_SADDR, newSaddr.value);
      if !ok { return Err(WriteError), sum; }
      sum := Add(sum, Diff(t.saddr, newSaddr.value));
    }
    var ok := p.ReplaceCsum(l3 + IP_CSUM, sum, false);
    r := if ok then Ok(()) else Err(CsumL3);
  }

  method StorePseudo(p: Packet, proto: U8, l4: nat, sum: U32) returns (r: Result<()>)
    requires p.Valid()
    modifies p.buf
    ensures Outcome(p.buf[..], r) == AmendPseudo(old(p.buf[..]), p.len, proto, l4, sum)
  {
    if PseudoCsum(proto).Some? {
      var ok := p.ReplaceCsum(l4 + PseudoCsum(proto).value, sum, proto == IPPROTO_UDP);
      if !ok { return Err(CsumL4); }
    }
    r := Ok(());
  }

  /** lb_l4_xlate */
  method StoreBackendPort(p: Packet, proto: U8, l4: nat, dport: Port, backendPort: Port, sctp: bool)
    returns (r: Result<()>)
    requires p.Valid()
    modifies p.buf
    ensures Outcome(p.buf[..], r) == XlatePort(old(p.buf[..]), p.len, proto, l4, dport, backendPort, sctp)
  {
    if backendPort != 0 && dport != backendPort {
      if sctp && proto == IPPROTO_SCTP { return Err(CsumL4); }
      r := p.StorePort(l4 + L4_DPORT, l4 + CsumOffset(proto), proto == IPPROTO_UDP, dport, backendPort);
      return;
    }
    r := Ok(());
  }

  /** reverse_map_l4_port */
  method StoreFrontendPort(p: Packet, proto: U8, l4: nat, oldPort: Port, port: Port, sctp: bool) returns (r: Result<()>)
    requires p.Valid()
    modifies p.buf
    ensures Outcome(p.buf[..], r) == ReversePort(old(p.buf[..]), p.len, proto, l4, oldPort, port, sctp)
  {
    if proto == IPPROTO_ICMP { return Ok(()); }
    if !(proto == IPPROTO_TCP || proto == IPPROTO_UDP || (proto == IPPROTO_SCTP && sctp)) { return Err(UnknownL4); }
    if port != 0 && port != oldPort {
      if proto == IPPROTO_SCTP { return Err(CsumL4); }
      r := p.StorePort(l4 + L4_SPORT, l4 + CsumOffset(proto), proto == IPPROTO_UDP, oldPort, port);
      return;
    }
    r := Ok(());
  }

  /** lb4_dnat_request */
  method TranslateRequest(p: Packet, l3: nat, l4: nat, t: Tuple, backend: Backend, loopback: bool, hasL4: bool,
                          opt: Options)
    returns (tuple: Tuple, r: Result<()>)
    requires p.Valid()
    modifies p.buf
    ensures Translated(p.buf[..], tuple, r) ==
            DnatRequest(old(p.buf[..]), p.len, l3, l4, t, backend, loopback, hasL4, opt)
  {
    hide ChangeAddrs, AmendPseudo, XlatePort;
    tuple := t;
    var newSaddr := 0;
    if loopback { newSaddr := opt.loopbackAddr; }
    if !loopback { tuple := tuple.(daddr := backend.address); }
    if backend.port != 0 { tuple := tuple.(sport := backend.port); }
    var sum;
    r, sum := StoreAddrs(p, l3, t, Some(backend.address), if newSaddr != 0 then Some(newSaddr) else None);
    if r.Err? || !hasL4 { return; }
    r := StorePseudo(p, t.nexthdr, l4, sum);
    if r.Err? { return; }
    r := StoreBackendPort(p, t.nexthdr, l4, t.sport, backend.port, opt.sctp);
  }

  /** __lb4_rev_nat */
  method TranslateBack(p: Packet, l3: nat, l4: nat, t: Tuple, nat4: RevNat, loopback: bool, hasL4: bool, opt: Options)
    returns (tuple: Tuple, r: Result<()>)
    requires p.Valid()
    modifies p.buf
    ensures Translated(p.buf[..], tuple, r) ==
            RevXlate(old(p.buf[..]), p.len, l3, l4, t, nat4, loopback, hasL4, opt)
  {
    hide ChangeAddrs, AmendPseudo, ReversePort;
    tuple := t.(saddr := nat4.address);
    var sum;
    r, sum := StoreAddrs(p, l3, t, if loopback then Some(t.saddr) else None, Some(nat4.address));
    if loopback && 2 * (l3 + IP_DADDR) + 4 <= p.len { tuple := tuple.(saddr := t.saddr); }
    if r.Err? || !hasL4 { return; }
    if nat4.port != 0 {
      r := StoreFrontendPort(p, t.nexthdr, l4, t.dport, nat4.port, opt.sctp);
      if r.Err? { return; }
    }
    r := StorePseudo(p, t.nexthdr, l4, sum);
  }

  /** lb4_rev_nat */
  method TranslateReply(p: Packet, l3: nat, l4: nat, t: Tuple, revNat: map<U16, RevNat>, s: Info, hasL4: bool,
                        opt: Options)
    returns (tuple: Tuple, r: Result<()>)
    requires p.Valid()
    modifies p.buf
    ensures Translated(p.buf[..], tuple, r) ==
            RevNatReply(old(p.buf[..]), p.len, l3, l4, t, revNat, s, hasL4, opt)
  {
    hide RevXlate;
    var nat4;
    if s.natPort != 0 {
      nat4 := RevNat(s.natAddr, s.natPort);
    } else if s.revNatIndex in revNat {
      nat4 := revNat[s.revNatIndex];
    } else {
      return t, Ok(());
    }
    tuple, r := TranslateBack(p, l3, l4, t, nat4, s.loopback, hasL4, opt);
  }
}
