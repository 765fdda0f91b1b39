/** What service translation means: the words it touches, that checksums stay valid, and that the client of a
    service sees replies exactly from the address and port it talked to. */
module ServiceLaws {
  import opened Net
  import opened Checksum
  import opened Conntrack
  import opened LoadBalancer
  import opened PacketBuffer
  import opened RewriteLaws
  import opened ServiceXlate

  /** A change of both addresses and one port. */
  datatype Edit = Edit(
    proto: U8, l3: nat, hasL4: bool, l4: nat,
    oldSaddr: Addr, newSaddr: Addr, oldDaddr: Addr, newDaddr: Addr,
    portOff: nat, oldPort: Port, newPort: Port)

  ghost function AddrsDelta(e: Edit): int {
    (e.newDaddr as int - e.oldDaddr as int) + (e.newSaddr as int - e.oldSaddr as int)
  }

  ghost function WholeDelta(e: Edit): int {
    e.newPort as int - e.oldPort as int + AddrsDelta(e)
  }

  /** The old values of the edit are those of the packet. */
  ghost predicate Placed(w: Words, e: Edit) {
    && e.l3 + IP_WORDS <= e.l4 <= |w|
    && AddrAt(w, e.l3 + IP_SADDR) == e.oldSaddr && AddrAt(w, e.l3 + IP_DADDR) == e.oldDaddr
    && PortProto(e.proto, true) && (e.portOff == L4_SPORT || e.portOff == L4_DPORT)
    && (e.hasL4 ==> e.l4 + e.portOff < |w| && w[e.l4 + e.portOff] == e.oldPort)
  }

  ghost predicate InIpEdit(e: Edit, i: int) {
    i == e.l3 + IP_CSUM || e.l3 + IP_SADDR <= i < e.l3 + IP_WORDS
  }

  ghost predicate InL4Edit(e: Edit, i: int) {
    || (e.oldPort != e.newPort && i == e.l4 + e.portOff)
    || (PseudoCsum(e.proto).Some? && i == e.l4 + PseudoCsum(e.proto).value)
  }

  /** The L4 half of an edit. */
  ghost predicate L4Edited(w: Words, w': Words, e: Edit) {
    && |w'| == |w|
    && (e.oldPort != e.newPort ==> e.l4 + e.portOff < |w| && w'[e.l4 + e.portOff] == e.newPort)
    && (PseudoCsum(e.proto).Some? ==>
          var i := e.l4 + PseudoCsum(e.proto).value;
          i < |w| && Moved(w[i], w'[i], WholeDelta(e), e.proto == IPPROTO_UDP))
    && forall i :: 0 <= i < |w| && !InL4Edit(e, i) ==> w'[i] == w[i]
  }

  /** The address half of an edit. */
  ghost predicate IpEdited(w: Words, w': Words, e: Edit) {
    && |w'| == |w| && e.l3 + IP_WORDS <= |w|
    && w'[e.l3 + IP_SADDR] == Hi(e.newSaddr) && w'[e.l3 + IP_SADDR + 1] == Lo(e.newSaddr)
    && w'[e.l3 + IP_DADDR] == Hi(e.newDaddr) && w'[e.l3 + IP_DADDR + 1] == Lo(e.newDaddr)
    && Moved(w[e.l3 + IP_CSUM], w'[e.l3 + IP_CSUM], AddrsDelta(e), false)
    && forall i :: 0 <= i < |w| && !InIpEdit(e, i) ==> w'[i] == w[i]
  }

  /** The packet `w` became `w'` by exactly this edit. */
  ghost predicate Edited(w: Words, w': Words, e: Edit) {
    exists m :: IpEdited(w, m, e) && if e.hasL4 then L4Edited(m, w', e) else m == w'
  }

  function RequestEdit(l3: nat, l4: nat, t: Tuple, backend: Backend, loopback: bool, hasL4: bool, opt: Options): Edit {
    Edit(t.nexthdr, l3, hasL4, l4,
         t.saddr, if loopback && opt.loopbackAddr != 0 then opt.loopbackAddr else t.saddr,
         t.daddr, backend.address,
         L4_DPORT, t.sport, if backend.port != 0 then backend.port else t.sport)
  }

  function ReplyEdit(l3: nat, l4: nat, t: Tuple, nat4: RevNat, loopback: bool, hasL4: bool): Edit {
    Edit(t.nexthdr, l3, hasL4, l4,
         t.saddr, nat4.address,
         t.daddr, if loopback then t.saddr else t.daddr,
         L4_SPORT, t.dport, if nat4.port != 0 then nat4.port else t.dport)
  }

  lemma SumCong(a: U32, b: U32, x: int, y: int)
    requires Cong(a, x) && Cong(b, y)
    ensures Cong(Add(a, b), x + y)
  {
    hide Add;
  }

  lemma AddrsMeaning(w: Words, len: nat, t: Tuple, newDaddr: Option<Addr>, newSaddr: Option<Addr>, e: Edit)
    requires |w| == WordCount(len) && (newDaddr.Some? || newSaddr.Some?)
    requires Placed(w, e) && e.oldSaddr == t.saddr && e.oldDaddr == t.daddr
    requires e.newSaddr == (if newSaddr.Some? then newSaddr.value else t.saddr)
    requires e.newDaddr == (if newDaddr.Some? then newDaddr.value else t.daddr)
    requires ChangeAddrs(w, len, e.l3, t, newDaddr, newSaddr).o.r.Ok?
    ensures var a := ChangeAddrs(w, len, e.l3, t, newDaddr, newSaddr);
            IpEdited(w, a.o.w, e) && Cong(a.sum, AddrsDelta(e))
  {
    hide Cong, Moved, Amend, Diff, Add, AddrAt, Hi, Lo;
    var a := ChangeAddrs(w, len, e.l3, t, newDaddr, newSaddr);
    var sum := if newDaddr.Some? then Diff(t.daddr, newDaddr.value) else 0;
    var d := e.newDaddr as int - e.oldDaddr as int;
    assert Cong(sum, d) by { if newDaddr.None? { CongRefl(0); } }
    if newSaddr.Some? {
      SumCong(sum, Diff(t.saddr, newSaddr.value), d, e.newSaddr as int - e.oldSaddr as int);
    }
    AddrParts(w, e.l3 + IP_SADDR);
    AddrParts(w, e.l3 + IP_DADDR);
    MovedCong(w[e.l3 + IP_CSUM], a.o.w[e.l3 + IP_CSUM], a.sum, AddrsDelta(e), false);
  }

  lemma RequestL4(w: Words, len: nat, e: Edit, sum: U32, sctp: bool)
    requires |w| == WordCount(len) && PortProto(e.proto, true) && Cong(sum, AddrsDelta(e)) && e.portOff == L4_DPORT
    requires e.proto == IPPROTO_SCTP ==> sctp
    requires var b := AmendPseudo(w, len, e.proto, e.l4, sum);
             b.r.Ok? && XlatePort(b.w, len, e.proto, e.l4, e.oldPort, e.newPort, sctp).r.Ok?
    requires e.oldPort != e.newPort ==> e.newPort != 0
    ensures var b := AmendPseudo(w, len, e.proto, e.l4, sum);
            L4Edited(w, XlatePort(b.w, len, e.proto, e.l4, e.oldPort, e.newPort, sctp).w, e)
  {
    hide Cong, Moved, Amend, Diff;
    var b := AmendPseudo(w, len, e.proto, e.l4, sum);
    var w' := XlatePort(b.w, len, e.proto, e.l4, e.oldPort, e.newPort, sctp).w;
    if PseudoCsum(e.proto).Some? {
      var i, z := e.l4 + PseudoCsum(e.proto).value, e.proto == IPPROTO_UDP;
      if e.oldPort == e.newPort {
        MovedCong(w[i], w'[i], sum, WholeDelta(e), z);
      } else {
        MovedBoth(w[i], b.w[i], w'[i], sum, AddrsDelta(e), Diff(e.oldPort, e.newPort),
                  e.newPort as int - e.oldPort as int, z);
      }
    }
  }

  lemma ReplyL4(w: Words, len: nat, e: Edit, sum: U32, sctp: bool)
    requires |w| == WordCount(len) && PortProto(e.proto, true) && Cong(sum, AddrsDelta(e)) && e.portOff == L4_SPORT
    requires var b := ReversePort(w, len, e.proto, e.l4, e.oldPort, e.newPort, sctp);
             b.r.Ok? && AmendPseudo(b.w, len, e.proto, e.l4, sum).r.Ok?
    requires e.oldPort != e.newPort ==> e.newPort != 0
    ensures var b := ReversePort(w, len, e.proto, e.l4, e.oldPort, e.newPort, sctp);
            L4Edited(w, AmendPseudo(b.w, len, e.proto, e.l4, sum).w, e)
  {
    hide Cong, Moved, Amend, Diff;
    var b := ReversePort(w, len, e.proto, e.l4, e.oldPort, e.newPort, sctp);
    var w' := AmendPseudo(b.w, len, e.proto, e.l4, sum).w;
    if PseudoCsum(e.proto).Some? {
      var i, z := e.l4 + PseudoCsum(e.proto).value, e.proto == IPPROTO_UDP;
      if e.oldPort == e.newPort {
        MovedCong(w[i], w'[i], sum, WholeDelta(e), z);
      } else {
        MovedBoth(w[i], b.w[i], w'[i], Diff(e.oldPort, e.newPort), e.newPort as int - e.oldPort as int,
                  sum, AddrsDelta(e), z);
      }
    }
  }

  /** DNAT that reports success did exactly its edit. */
  lemma RequestMeaning(w: Words, len: nat, l3: nat, l4: nat, t: Tuple, backend: Backend, loopback: bool, hasL4: bool,
                       opt: Options)
    requires |w| == WordCount(len) && Placed(w, RequestEdit(l3, l4, t, backend, loopback, hasL4, opt))
    requires t.nexthdr == IPPROTO_SCTP ==> opt.sctp
    requires DnatRequest(w, len, l3, l4, t, backend, loopback, hasL4, opt).r.Ok?
    ensures Edited(w, DnatRequest(w, len, l3, l4, t, backend, loopback, hasL4, opt).w,
                   RequestEdit(l3, l4, t, backend, loopback, hasL4, opt))
    ensures t.nexthdr == IPPROTO_SCTP && hasL4 ==> backend.port == 0 || backend.port == t.sport
  {
    hide ChangeAddrs, AmendPseudo, XlatePort, IpEdited, L4Edited, Cong;
    var e := RequestEdit(l3, l4, t, backend, loopback, hasL4, opt);
    var newSaddr := if loopback && opt.loopbackAddr != 0 then Some(opt.loopbackAddr) else None;
    var a := ChangeAddrs(w, len, l3, t, Some(backend.address), newSaddr);
    AddrsMeaning(w, len, t, Some(backend.address), newSaddr, e);
    if hasL4 {
      PortZero(AmendPseudo(a.o.w, len, e.proto, l4, a.sum).w, len, e.proto, l4, t.sport, backend.port, opt.sctp);
      RequestL4(a.o.w, len, e, a.sum, opt.sctp);
      SctpKept(AmendPseudo(a.o.w, len, e.proto, l4, a.sum).w, len, l4, t.sport, backend.port);
    }
  }

  lemma PortZero(w: Words, len: nat, proto: U8, l4: nat, dport: Port, port: Port, sctp: bool)
    requires |w| == WordCount(len)
    ensures var newPort := if port != 0 then port else dport;
            XlatePort(w, len, proto, l4, dport, port, sctp) == XlatePort(w, len, proto, l4, dport, newPort, sctp)
  {
  }

  /** Nothing may change an SCTP port: its CRC could not follow. */
  lemma SctpKept(w: Words, len: nat, l4: nat, dport: Port, port: Port)
    requires |w| == WordCount(len)
    ensures XlatePort(w, len, IPPROTO_SCTP, l4, dport, port, true).r.Ok? ==> port == 0 || port == dport
  {
  }

  lemma PortKept(w: Words, len: nat, proto: U8, l4: nat, dport: Port, sctp: bool)
    requires |w| == WordCount(len) && PortProto(proto, true) && (proto == IPPROTO_SCTP ==> sctp)
    ensures ReversePort(w, len, proto, l4, dport, dport, sctp) == Outcome(w, Ok(()))
  {
  }

  /** And so did reverse DNAT. */
  lemma ReplyMeaning(w: Words, len: nat, l3: nat, l4: nat, t: Tuple, nat4: RevNat, loopback: bool, hasL4: bool,
                     opt: Options)
    requires |w| == WordCount(len) && Placed(w, ReplyEdit(l3, l4, t, nat4, loopback, hasL4))
    requires t.nexthdr == IPPROTO_SCTP ==> opt.sctp
    requires RevXlate(w, len, l3, l4, t, nat4, loopback, hasL4, opt).r.Ok?
    ensures Edited(w, RevXlate(w, len, l3, l4, t, nat4, loopback, hasL4, opt).w,
                   ReplyEdit(l3, l4, t, nat4, loopback, hasL4))
  {
    hide ChangeAddrs, AmendPseudo, ReversePort, IpEdited, L4Edited, Cong;
    var e := ReplyEdit(l3, l4, t, nat4, loopback, hasL4);
    var newDaddr := if loopback then Some(t.saddr) else None;
    var a := ChangeAddrs(w, len, l3, t, newDaddr, Some(nat4.address));
    AddrsMeaning(w, len, t, newDaddr, Some(nat4.address), e);
    if hasL4 {
      PortKept(a.o.w, len, e.proto, l4, t.dport, opt.sctp);
      ReplyL4(a.o.w, len, e, a.sum, opt.sctp);
    }
  }

  // ---------------------------------------------------------------- checksums

  /** An edit is two single-address rewrites: first destination and port, then source. */
  function First(e: Edit): Rewrite {
    Rewrite(e.proto, e.l3, e.hasL4, e.l4, IP_DADDR, e.oldDaddr, e.newDaddr, e.portOff, e.oldPort, e.newPort, 0)
  }

  function Second(e: Edit): Rewrite {
    Rewrite(e.proto, e.l3, e.hasL4, e.l4, IP_SADDR, e.oldSaddr, e.newSaddr, e.portOff, e.newPort, e.newPort, 0)
  }

  lemma MovedRest(h: U16, h1: U16, h': U16, a: int, b: int, z: bool)
    requires Moved(h, h', a + b, z) && Moved(h, h1, a, z)
    ensures Moved(h1, h', b, z)
  {
    hide Cong;
    if !z || h != 0 { CongRest(h, h1, h', a, b); }
  }

  lemma CongRest(h: int, h1: int, h': int, a: int, b: int)
    requires Cong(h', h - (a + b)) && Cong(h1, h - a)
    ensures Cong(h', h1 - b)
  {
  }

  ghost function Halfway(w: Words, e: Edit): (m: Words)
    requires e.l3 + IP_WORDS <= e.l4 <= |w|
    ensures |m| == |w|
  {
    var d := Diff(e.oldDaddr, e.newDaddr);
    var w1 := SetAddr(w, e.l3 + IP_DADDR, e.newDaddr)[e.l3 + IP_CSUM := Amend(w[e.l3 + IP_CSUM], d, false)];
    if !e.hasL4 then w1
    else
      var w2 := if e.oldPort != e.newPort && e.l4 + e.portOff < |w| then w1[e.l4 + e.portOff := e.newPort] else w1;
      if PseudoCsum(e.proto).Some? && e.l4 + PseudoCsum(e.proto).value < |w| then
        var k, z := e.l4 + PseudoCsum(e.proto).value, e.proto == IPPROTO_UDP;
        w2[k := Amend(Amend(w[k], Diff(e.oldPort, e.newPort), z), d, z)]
      else w2
  }

  lemma FirstHalf(w: Words, w': Words, e: Edit)
    requires Placed(w, e) && Edited(w, w', e)
    ensures WellPlaced(w, First(e)) && Rewritten(w, Halfway(w, e), First(e), true)
  {
    hide Cong, Moved, Amend, Diff, AddrAt, Hi, Lo;
    var c, m := First(e), Halfway(w, e);
    MovedCong(w[e.l3 + IP_CSUM], m[e.l3 + IP_CSUM], Diff(e.oldDaddr, e.newDaddr), AddrDelta(c), false);
    if e.hasL4 && PseudoCsum(e.proto).Some? {
      var k, z := e.l4 + PseudoCsum(e.proto).value, e.proto == IPPROTO_UDP;
      MovedBoth(w[k], Amend(w[k], Diff(e.oldPort, e.newPort), z), m[k], Diff(e.oldPort, e.newPort), PortDelta(c),
                Diff(e.oldDaddr, e.newDaddr), AddrDelta(c), z);
    }
  }

  lemma SecondHalf(w: Words, w': Words, e: Edit)
    requires Placed(w, e) && Edited(w, w', e)
    requires Rewritten(w, Halfway(w, e), First(e), true)
    ensures WellPlaced(Halfway(w, e), Second(e)) && Rewritten(Halfway(w, e), w', Second(e), true)
  {
    hide Cong, Moved, Amend, Diff, Hi, Lo;
    var c, m := First(e), Halfway(w, e);
    var k := e.l3 + IP_CSUM;
    MovedRest(w[k], m[k], w'[k], AddrDelta(c), AddrDelta(Second(e)), false);
    if e.hasL4 && PseudoCsum(e.proto).Some? {
      var i := e.l4 + PseudoCsum(e.proto).value;
      MovedRest(w[i], m[i], w'[i], CsumDelta(c), CsumDelta(Second(e)), e.proto == IPPROTO_UDP);
    }
  }

  /** Service translation keeps the IP header checksum and the TCP or UDP checksum correct. */
  lemma EditStaysValid(w: Words, w': Words, e: Edit, end: nat, l4Len: nat)
    requires Placed(w, e) && Edited(w, w', e) && e.proto == Proto(w, e.l3)
    requires e.l4 <= end <= |w|
    requires IpValid(w, e.l3) && e.l4 == e.l3 + HdrWords(w, e.l3)
    ensures |w'| == |w| && IpValid(w', e.l3)
    ensures e.hasL4 && L4Valid(w, e.l3, e.l4, end, l4Len) ==> L4Valid(w', e.l3, e.l4, end, l4Len)
  {
    hide Edited, Rewritten, Halfway, IpValid, L4Valid, HdrWords, Proto, WellPlaced;
    var m := Halfway(w, e);
    FirstHalf(w, w', e);
    SecondHalf(w, w', e);
    HeaderKept(w, m, First(e), true);
    IpStaysValid(w, m, First(e), true);
    IpStaysValid(m, w', Second(e), true);
    HeaderKept(m, w', Second(e), true);
    PseudoMoves(w, m, First(e), l4Len);
    PseudoMoves(m, w', Second(e), l4Len);
    if e.hasL4 && L4Valid(w, e.l3, e.l4, end, l4Len) {
      if e.proto == IPPROTO_SCTP {
        SctpValid(w', e.l3, e.l4, end, l4Len);
      } else {
        TransportStaysValid(w, m, First(e), end, l4Len);
        TransportStaysValid(m, w', Second(e), end, l4Len);
      }
    }
  }
}
