/** The packet as a mutable buffer, and the header rewriting shared by SNAT and service translation.

    A buffer holds 16-bit words in network byte order and a byte length; every field the programs touch is
    aligned to a word. All offsets below are word offsets. */
module PacketBuffer {
  import opened Net
  import opened Checksum

  type Words = seq<U16>

  const IP_FRAG: nat := 3
  const IP_PROTO: nat := 4
  const IP_CSUM: nat := 5
  const IP_SADDR: nat := 6
  const IP_DADDR: nat := 8
  const IP_WORDS: nat := 10

  const L4_SPORT: nat := 0
  const L4_DPORT: nat := 1
  const TCP_CSUM: nat := 8
  const UDP_CSUM: nat := 3
  const ICMP_CSUM: nat := 1
  const ICMP_ID: nat := 2
  const ICMP_WORDS: nat := 4

  function Hi(a: Addr): U16 { a / 0x1_0000 }
  function Lo(a: Addr): U16 { a % 0x1_0000 }

  function AddrAt(w: Words, i: nat): Addr
    requires i + 1 < |w|
  {
    var hi: int := w[i];
    hi * 0x1_0000 + w[i + 1]
  }

  function SetAddr(w: Words, i: nat, a: Addr): Words
    requires i + 1 < |w|
  {
    w[i := Hi(a)][i + 1 := Lo(a)]
  }

  function Proto(w: Words, l3: nat): U8
    requires l3 + IP_WORDS <= |w|
  {
    w[l3 + IP_PROTO] % 0x100
  }

  /** Header length in words, from the IHL nibble. */
  function HdrWords(w: Words, l3: nat): nat
    requires l3 < |w|
  {
    2 * (w[l3] / 0x100 % 0x10)
  }

  /** ipfrag_is_fragment */
  predicate IsFragment(w: Words, l3: nat)
    requires l3 + IP_WORDS <= |w|
  {
    w[l3 + IP_FRAG] % 0x4000 != 0
  }

  /** ipfrag_has_l4_header */
  predicate HasL4Header(w: Words, l3: nat)
    requires l3 + IP_WORDS <= |w|
  {
    w[l3 + IP_FRAG] % 0x2000 == 0
  }

  /** Words needed to hold `len` bytes. */
  function WordCount(len: nat): nat {
    (len + 1) / 2
  }

  predicate InBounds(len: nat, i: nat, n: nat) {
    2 * (i + n) <= len
  }

  // ---------------------------------------------------------------- the rewriting as a function

  /** A header rewrite: an address change, a port change, and the difference an embedded packet contributes
      to an outer ICMP checksum. */
  datatype Rewrite = Rewrite(
    proto: U8, l3: nat, hasL4: bool, l4: nat,
    addrOff: nat, oldAddr: Addr, newAddr: Addr,
    portOff: nat, oldPort: Port, newPort: Port,
    innerDiff: U32)

  datatype Outcome = Outcome(w: Words, r: Result<()>)

  function AmendAt(w: Words, len: nat, i: nat, diff: U32, z: bool): Outcome
    requires |w| == WordCount(len)
  {
    if InBounds(len, i, 1) then Outcome(w[i := Amend(w[i], diff, z)], Ok(())) else Outcome(w, Err(CsumL4))
  }

  /** l4_modify_port */
  function ModifyPort(w: Words, len: nat, port: nat, csum: nat, z: bool, oldPort: Port, newPort: Port): Outcome
    requires |w| == WordCount(len)
  {
    if !InBounds(len, port, 1) then Outcome(w, Err(WriteError))
    else AmendAt(w[port := newPort], len, csum, Diff(oldPort, newPort), z)
  }

  /** csum_l4_offset_and_flags: the protocols whose checksum covers the pseudo header. */
  function PseudoCsum(proto: U8): Option<nat> {
    if proto == IPPROTO_TCP then Some(TCP_CSUM)
    else if proto == IPPROTO_UDP then Some(UDP_CSUM)
    else None
  }

  function PortStep(w: Words, len: nat, c: Rewrite, sctp: bool): (o: Outcome)
    requires |w| == WordCount(len)
    ensures |o.w| == |w|
  {
    if c.oldPort == c.newPort then Outcome(w, Ok(()))
    else if c.proto == IPPROTO_TCP || c.proto == IPPROTO_UDP then
      ModifyPort(w, len, c.l4 + c.portOff, c.l4 + PseudoCsum(c.proto).value, c.proto == IPPROTO_UDP,
                 c.oldPort, c.newPort)
    else if c.proto == IPPROTO_ICMP then
      ModifyPort(w, len, c.l4 + c.portOff, c.l4 + ICMP_CSUM, false, c.oldPort, c.newPort)
    else Outcome(w, Err(if c.proto == IPPROTO_SCTP && sctp then CsumL4 else UnknownL4))
  }

  /** l4_rewrite_port_and_csum */
  function RewriteL4(w: Words, len: nat, c: Rewrite, addrDiff: U32, sctp: bool): Outcome
    requires |w| == WordCount(len)
  {
    var step := PortStep(w, len, c, sctp);
    if step.r.Err? then step
    else if PseudoCsum(c.proto).Some? then
      AmendAt(step.w, len, c.l4 + PseudoCsum(c.proto).value, addrDiff, c.proto == IPPROTO_UDP)
    else if c.innerDiff != 0 then AmendAt(step.w, len, c.l4 + ICMP_CSUM, c.innerDiff, false)
    else step
  }

  /** ipv4_l3_rewrite_addr on a header that is in bounds. */
  function RewriteL3(w: Words, l3: nat, addrOff: nat, oldAddr: Addr, newAddr: Addr): (r: Words)
    requires l3 + addrOff + 1 < |w| && IP_CSUM < addrOff
    ensures |r| == |w|
  {
    SetAddr(w, l3 + addrOff, newAddr)[l3 + IP_CSUM := Amend(w[l3 + IP_CSUM], Diff(oldAddr, newAddr), false)]
  }

  /** snat_v4_rewrite_headers */
  function RewriteHeaders(w: Words, len: nat, c: Rewrite, sctp: bool): (o: Outcome)
    requires |w| == WordCount(len) && IP_CSUM < c.addrOff
  {
    if c.oldAddr == c.newAddr && c.oldPort == c.newPort && c.innerDiff == 0 then Outcome(w, Ok(()))
    else if !InBounds(len, c.l3 + c.addrOff, 2) then Outcome(w, Err(WriteError))
    else
      var w1 := RewriteL3(w, c.l3, c.addrOff, c.oldAddr, c.newAddr);
      if c.hasL4 then RewriteL4(w1, len, c, Diff(c.oldAddr, c.newAddr), sctp)
      else Outcome(w1, Ok(()))
  }

  lemma RewriteKeepsLength(w: Words, len: nat, c: Rewrite, sctp: bool)
    requires |w| == WordCount(len) && IP_CSUM < c.addrOff
    ensures |RewriteHeaders(w, len, c, sctp).w| == |w|
  {
  }

  // ---------------------------------------------------------------- the buffer itself

  /** A packet under edit. */
  class Packet {
    const buf: array<U16>
    const len: nat

    ghost predicate Valid() {
      buf.Length == WordCount(len)
    }

    constructor (len: nat)
      ensures this.len == len && Valid() && fresh(buf)
    {
      this.len := len;
      buf := new U16[WordCount(len)];
    }

    /** ctx_store_bytes of one word */
    method StoreWord(i: nat, v: U16) returns (ok: bool)
      requires Valid()
      modifies buf
      ensures ok == InBounds(len, i, 1)
      ensures buf[..] == if ok then old(buf[..])[i := v] else old(buf[..])
    {
      ok := 2 * i + 2 <= len;
      if ok { buf[i] := v; }
    }

    /** ctx_store_bytes of an address */
    method StoreAddr(i: nat, a: Addr) returns (ok: bool)
      requires Valid()
      modifies buf
      ensures ok == InBounds(len, i, 2)
      ensures buf[..] == if ok then SetAddr(old(buf[..]), i, a) else old(buf[..])
    {
      ok := 2 * i + 4 <= len;
      if ok {
        buf[i] := Hi(a);
        buf[i + 1] := Lo(a);
      }
    }

    /** l3_csum_replace and l4_csum_replace by a difference */
    method ReplaceCsum(i: nat, diff: U32, mangled0: bool) returns (ok: bool)
      requires Valid()
      modifies buf
      ensures var o := AmendAt(old(buf[..]), len, i, diff, mangled0);
              buf[..] == o.w && ok == o.r.Ok?
    {
      ok := 2 * i + 2 <= len;
      if ok && !(mangled0 && buf[i] == 0) {
        var hc := Replace(buf[i], diff);
        buf[i] := if mangled0 && hc == 0 then 0xFFFF else hc;
      }
    }

    /** l4_modify_port */
    method StorePort(port: nat, csum: nat, mangled0: bool, oldPort: Port, newPort: Port) returns (r: Result<()>)
      requires Valid()
      modifies buf
      ensures Outcome(buf[..], r) == ModifyPort(old(buf[..]), len, port, csum, mangled0, oldPort, newPort)
    {
      var ok := StoreWord(port, newPort);
      if !ok { return Err(WriteError); }
      ok := ReplaceCsum(csum, Diff(oldPort, newPort), mangled0);
      r := if ok then Ok(()) else Err(CsumL4);
    }

    /** The first half of l4_rewrite_port_and_csum: the port, if it changes. */
    method ChangePort(c: Rewrite, sctp: bool) returns (r: Result<()>)
      requires Valid()
      modifies buf
      ensures Outcome(buf[..], r) == PortStep(old(buf[..]), len, c, sctp)
    {
      hide ModifyPort;
      if c.oldPort == c.newPort { return Ok(()); }
      var csum := 0;
      if c.proto == IPPROTO_TCP {
        csum := TCP_CSUM;
      } else if c.proto == IPPROTO_UDP {
        csum := UDP_CSUM;
      } else if c.proto == IPPROTO_ICMP {
        csum := ICMP_CSUM;
      } else {
        return Err(if c.proto == IPPROTO_SCTP && sctp then CsumL4 else UnknownL4);
      }
      r := StorePort(c.l4 + c.portOff, c.l4 + csum, c.proto == IPPROTO_UDP, c.oldPort, c.newPort);
    }

    /** l4_rewrite_port_and_csum */
    method RewritePortAndCsum(c: Rewrite, addrDiff: U32, sctp: bool) returns (r: Result<()>)
      requires Valid()
      modifies buf
      ensures Outcome(buf[..], r) == RewriteL4(old(buf[..]), len, c, addrDiff, sctp)
    {
      hide Amend, PortStep;
      r := ChangePort(c, sctp);
      if r.Err? { return; }
      var csum := 0;
      if c.proto == IPPROTO_TCP { csum := TCP_CSUM; }
      else if c.proto == IPPROTO_UDP { csum := UDP_CSUM; }
      if csum != 0 {
        var ok := ReplaceCsum(c.l4 + csum, addrDiff, c.proto == IPPROTO_UDP);
        r := if ok then Ok(()) else Err(CsumL4);
      } else if c.innerDiff != 0 {
        var ok := ReplaceCsum(c.l4 + ICMP_CSUM, c.innerDiff, false);
        r := if ok then Ok(()) else Err(CsumL4);
      }
    }

    /** snat_v4_rewrite_headers */
    method RewriteBoth(c: Rewrite, sctp: bool) returns (r: Result<()>)
      requires Valid() && IP_CSUM < c.addrOff
      modifies buf
      ensures Outcome(buf[..], r) == RewriteHeaders(old(buf[..]), len, c, sctp)
    {
      hide Amend, Diff, RewriteL4;
      if c.oldAddr == c.newAddr && c.oldPort == c.newPort && c.innerDiff == 0 { return Ok(()); }
      var sum := Diff(c.oldAddr, c.newAddr);
      var ok := StoreAddr(c.l3 + c.addrOff, c.newAddr);
      if !ok { return Err(WriteError); }
      ok := ReplaceCsum(c.l3 + IP_CSUM, sum, false);
      if !ok { return Err(CsumL3); }
      assert buf[..] == RewriteL3(old(buf[..]), c.l3, c.addrOff, c.oldAddr, c.newAddr);
      if c.hasL4 {
        r := RewritePortAndCsum(c, sum, sctp);
        return;
      }
      r := Ok(());
    }
  }
}
