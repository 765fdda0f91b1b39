/** Integer widths, protocol constants and the connection tuple shared by every component. */
module Net {

  type U8 = x: nat | x < 0x100
  type U16 = x: nat | x < 0x1_0000
  type U32 = x: nat | x < 0x1_0000_0000
  type U64 = x: nat | x < 0x1_0000_0000_0000_0000

  type Addr = U32
  type Port = U16

  const U32_SIZE: nat := 0x1_0000_0000
  const U64_SIZE: nat := 0x1_0000_0000_0000_0000

  const IPPROTO_ICMP: U8 := 1
  const IPPROTO_TCP: U8 := 6
  const IPPROTO_UDP: U8 := 17
  const IPPROTO_SCTP: U8 := 132

  /** The protocols whose ports are tracked and translated. */
  predicate PortProto(proto: U8, sctp: bool) {
    proto == IPPROTO_TCP || proto == IPPROTO_UDP || (proto == IPPROTO_SCTP && sctp)
  }

  /** The security identity of the local host. */
  const HOST_ID: U32 := 1

  const ICMP_ECHOREPLY: U8 := 0
  const ICMP_DEST_UNREACH: U8 := 3
  const ICMP_REDIRECT: U8 := 5
  const ICMP_ECHO: U8 := 8
  const ICMP_TIME_EXCEEDED: U8 := 11
  const ICMP_PARAMETERPROB: U8 := 12

  /** The flag bits of a tuple: TUPLE_F_IN, TUPLE_F_RELATED and TUPLE_F_SERVICE (TUPLE_F_OUT is none of them). */
  datatype Flags = Flags(inward: bool, related: bool, service: bool)

  const F_OUT := Flags(false, false, false)
  const F_IN := Flags(true, false, false)
  const F_SERVICE := Flags(false, false, true)

  /** struct ipv4_ct_tuple: the key of the conntrack and of the NAT table. */
  datatype Tuple = Tuple(daddr: Addr, saddr: Addr, dport: Port, sport: Port, nexthdr: U8, flags: Flags) {

    function SwapAddrs(): Tuple {
      this.(daddr := saddr, saddr := daddr)
    }

    function SwapPorts(): Tuple {
      this.(dport := sport, sport := dport)
    }

    function FlipDir(): Tuple {
      this.(flags := flags.(inward := !flags.inward))
    }

    /** ipv4_ct_tuple_reverse */
    function Reverse(): Tuple {
      SwapAddrs().SwapPorts().FlipDir()
    }
  }

  datatype Option<+T> = None | Some(value: T)

  /** The verdicts of the modelled programs that are not success. */
  datatype Drop =
    | NoMapping | NoSnatMap | CtError | MapDelete
    | Invalid | WriteError | CsumL3 | CsumL4 | UnknownL4 | UnknownIcmpCode
    | UnsuppProto | FragNoSupport | FragNotFound | InvalidHdr | CtUnknownProto
    | CtCreateFailed | PuntToStack | PolicyDrop | PolicyDeny | NoService | UnknownCt

  datatype Result<+T> = Ok(value: T) | Err(error: Drop)
}
