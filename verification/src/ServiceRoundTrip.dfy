/** The service round trip: a client that talks to a service gets its answers from the address and port it dialled,
    from the packet it sends, over the connection that is tracked for it, to the packet it receives. */
module ServiceRoundTrip {
  import opened Net
  import opened Checksum
  import opened Conntrack
  import opened LoadBalancer
  import opened PacketBuffer
  import opened RewriteLaws
  import opened ServiceXlate
  import opened ServiceLaws
  import ConntrackLaws
  import Replies

  // ---------------------------------------------------------------- packets and flows

  /** The tuple describes the packet; its ports are exchanged, and those of a later fragment come from the
      fragment tracker. */
  ghost predicate Carries(w: Words, l3: nat, l4: nat, t: Tuple) {
    && l3 + IP_WORDS <= l4 <= |w|
    && AddrAt(w, l3 + IP_SADDR) == t.saddr && AddrAt(w, l3 + IP_DADDR) == t.daddr
    && t.nexthdr == Proto(w, l3) && PortProto(t.nexthdr, true)
    && (HasL4Header(w, l3) ==> l4 + 1 < |w| && w[l4 + L4_SPORT] == t.dport && w[l4 + L4_DPORT] == t.sport)
  }

  /** The same flow seen from the other end. */
  function Swapped(t: Tuple): Tuple {
    t.SwapAddrs().SwapPorts()
  }

  /** The request as it reaches the backend. */
  function AtBackend(t: Tuple, backend: Backend, opt: Options): Tuple {
    t.(saddr := if t.saddr == backend.address && opt.loopbackAddr != 0 then opt.loopbackAddr else t.saddr,
       daddr := backend.address,
       sport := if backend.port != 0 then backend.port else t.sport)
  }

  /** An edit leaves a packet that carries the edited tuple, and its other fields as they were. */
  lemma EditCarries(w: Words, w': Words, e: Edit, t: Tuple, t': Tuple)
    requires Carries(w, e.l3, e.l4, t) && Placed(w, e) && Edited(w, w', e) && e.proto == t.nexthdr
    requires e.hasL4 == HasL4Header(w, e.l3)
    requires t'.nexthdr == t.nexthdr && t'.saddr == e.newSaddr && t'.daddr == e.newDaddr
    requires t'.dport == if e.portOff == L4_SPORT then e.newPort else t.dport
    requires t'.sport == if e.portOff == L4_DPORT then e.newPort else t.sport
    ensures |w'| == |w| && Carries(w', e.l3, e.l4, t') && HasL4Header(w', e.l3) == HasL4Header(w, e.l3)
    ensures forall i :: 0 <= i < |w| && !InIpEdit(e, i) && !(e.hasL4 && InL4Edit(e, i)) ==> w'[i] == w[i]
  {
    hide Cong, Moved;
    assert w'[e.l3 + IP_PROTO] == w[e.l3 + IP_PROTO] && w'[e.l3 + IP_FRAG] == w[e.l3 + IP_FRAG];
  }

  /** What reaches the backend. */
  lemma RequestArrives(w: Words, len: nat, l3: nat, l4: nat, t: Tuple, backend: Backend, opt: Options)
    requires |w| == WordCount(len) && Carries(w, l3, l4, t) && (t.nexthdr == IPPROTO_SCTP ==> opt.sctp)
    requires DnatRequest(w, len, l3, l4, t, backend, t.saddr == backend.address, HasL4Header(w, l3), opt).r.Ok?
    ensures var w' := DnatRequest(w, len, l3, l4, t, backend, t.saddr == backend.address, HasL4Header(w, l3), opt).w;
            var e := RequestEdit(l3, l4, t, backend, t.saddr == backend.address, HasL4Header(w, l3), opt);
            && Placed(w, e) && Edited(w, w', e)
            && Carries(w', l3, l4, AtBackend(t, backend, opt)) && HasL4Header(w', l3) == HasL4Header(w, l3)
  {
    hide DnatRequest, Edited, AddrAt, HasL4Header, Proto;
    var hasL4, loopback := HasL4Header(w, l3), t.saddr == backend.address;
    var e := RequestEdit(l3, l4, t, backend, loopback, hasL4, opt);
    var w' := DnatRequest(w, len, l3, l4, t, backend, loopback, hasL4, opt).w;
    RequestMeaning(w, len, l3, l4, t, backend, loopback, hasL4, opt);
    EditCarries(w, w', e, t, AtBackend(t, backend, opt));
  }

  /** The connection remembers the frontend the client dialled: in the state itself for a wildcard service,
      otherwise through the service's index. */
  ghost predicate Remembers(revNat: map<U16, RevNat>, s: Info, t: Tuple) {
    if s.natPort != 0 then s.natAddr == t.daddr && s.natPort == t.sport
    else s.revNatIndex in revNat && revNat[s.revNatIndex] == RevNat(t.daddr, t.sport)
  }

  /** The headers of the reply lie within the packet. */
  ghost predicate Complete(v: Words, len: nat, l3: nat, l4: nat)
    requires l3 + IP_WORDS <= |v|
  {
    InBounds(len, l3, IP_WORDS) && (HasL4Header(v, l3) ==> InBounds(len, l4, CsumOffset(Proto(v, l3)) + 1))
  }

  /** Reverse translation of a complete packet succeeds, unless it would have to change an SCTP port. */
  lemma ReplySucceeds(v: Words, len: nat, l3: nat, l4: nat, t: Tuple, nat4: RevNat, loopback: bool, opt: Options)
    requires |v| == WordCount(len) && Carries(v, l3, l4, t) && Complete(v, len, l3, l4)
    requires t.nexthdr == IPPROTO_SCTP ==> opt.sctp
    ensures RevXlate(v, len, l3, l4, t, nat4, loopback, HasL4Header(v, l3), opt).r.Ok? <==>
              !(t.nexthdr == IPPROTO_SCTP && HasL4Header(v, l3) && nat4.port != 0 && nat4.port != t.dport)
  {
    hide Amend, Diff, Add, SetAddr;
  }

  /** DNAT of a complete packet succeeds, unless it would have to change an SCTP port. */
  lemma RequestSucceeds(w: Words, len: nat, l3: nat, l4: nat, t: Tuple, backend: Backend, loopback: bool, opt: Options)
    requires |w| == WordCount(len) && Carries(w, l3, l4, t) && Complete(w, len, l3, l4)
    requires t.nexthdr == IPPROTO_SCTP ==> opt.sctp
    ensures DnatRequest(w, len, l3, l4, t, backend, loopback, HasL4Header(w, l3), opt).r.Ok? <==>
              !(t.nexthdr == IPPROTO_SCTP && HasL4Header(w, l3) && backend.port != 0 && backend.port != t.sport)
  {
    hide Amend, Diff, Add, SetAddr;
  }

  /** Why DNAT fails: the addresses do not fit the packet, and then nothing is written; or the port or the checksum does
      not; or the port of a protocol without adjustable checksum would change. */
  lemma RequestFailsBecause(w: Words, len: nat, l3: nat, l4: nat, t: Tuple, backend: Backend, loopback: bool, hasL4: bool,
                            opt: Options)
    requires |w| == WordCount(len) && PortProto(t.nexthdr, opt.sctp)
    ensures var d := DnatRequest(w, len, l3, l4, t, backend, loopback, hasL4, opt);
            && (2 * (l3 + IP_DADDR) + 4 > len ==> d.r == Err(WriteError) && d.w == w)
            && (2 * (l3 + IP_DADDR) + 4 <= len && d.r.Err? ==>
                  hasL4 && d.r in {Err(CsumL4), Err(WriteError)} && (t.nexthdr == IPPROTO_SCTP ==> d.r == Err(CsumL4)))
  {
    hide Amend, Diff, Add, SetAddr;
  }

  /** Why reverse DNAT fails: the same. */
  lemma ReplyFailsBecause(v: Words, len: nat, l3: nat, l4: nat, t: Tuple, nat4: RevNat, loopback: bool, hasL4: bool,
                          opt: Options)
    requires |v| == WordCount(len) && PortProto(t.nexthdr, opt.sctp)
    ensures var d := RevXlate(v, len, l3, l4, t, nat4, loopback, hasL4, opt);
            && (2 * (l3 + if loopback then IP_DADDR else IP_SADDR) + 4 > len ==> d.r == Err(WriteError) && d.w == v)
            && (2 * (l3 + IP_DADDR) + 4 <= len && d.r.Err? ==>
                  hasL4 && d.r in {Err(CsumL4), Err(WriteError)} && (t.nexthdr == IPPROTO_SCTP ==> d.r == Err(CsumL4)))
  {
    hide Amend, Diff, Add, SetAddr;
  }

  /** The tuple DNAT leaves with the caller is the flow the packet now carries; in the loopback case it keeps the
      addresses the client used, and only the port follows the backend. */
  lemma RequestTuple(w: Words, len: nat, l3: nat, l4: nat, t: Tuple, backend: Backend, opt: Options)
    requires |w| == WordCount(len) && Carries(w, l3, l4, t) && (t.nexthdr == IPPROTO_SCTP ==> opt.sctp)
    requires DnatRequest(w, len, l3, l4, t, backend, t.saddr == backend.address, HasL4Header(w, l3), opt).r.Ok?
    ensures var d := DnatRequest(w, len, l3, l4, t, backend, t.saddr == backend.address, HasL4Header(w, l3), opt);
            if t.saddr == backend.address
            then d.tuple == t.(sport := if backend.port != 0 then backend.port else t.sport)
            else Carries(d.w, l3, l4, d.tuple) && d.tuple == AtBackend(t, backend, opt)
  {
    RequestArrives(w, len, l3, l4, t, backend, opt);
    hide ChangeAddrs, AmendPseudo, XlatePort, Carries;
  }

  /** The tuple reverse DNAT leaves has the source address the packet now carries; in the loopback case its source
      stands for the packet's new destination. Ports stay those of the reply. */
  lemma ReplyTuple(v: Words, len: nat, l3: nat, l4: nat, t: Tuple, nat4: RevNat, loopback: bool, opt: Options)
    requires |v| == WordCount(len) && Carries(v, l3, l4, t) && (t.nexthdr == IPPROTO_SCTP ==> opt.sctp)
    requires RevXlate(v, len, l3, l4, t, nat4, loopback, HasL4Header(v, l3), opt).r.Ok?
    ensures var d := RevXlate(v, len, l3, l4, t, nat4, loopback, HasL4Header(v, l3), opt);
            && |d.w| == |v| && AddrAt(d.w, l3 + IP_SADDR) == nat4.address
            && AddrAt(d.w, l3 + IP_DADDR) == (if loopback then t.saddr else t.daddr)
            && d.tuple == t.(saddr := AddrAt(d.w, l3 + if loopback then IP_DADDR else IP_SADDR))
  {
    hide Edited, AddrAt, HasL4Header, Proto, ChangeAddrs, AmendPseudo, ReversePort;
    var hasL4 := HasL4Header(v, l3);
    var e := ReplyEdit(l3, l4, t, nat4, loopback, hasL4);
    ReplyMeaning(v, len, l3, l4, t, nat4, loopback, hasL4, opt);
    var d := RevXlate(v, len, l3, l4, t, nat4, loopback, hasL4, opt);
    EditCarries(v, d.w, e, t, t.(saddr := e.newSaddr, daddr := e.newDaddr, dport := e.newPort));
    StoredBoth(v, len, l3, t, nat4, loopback);
  }

  lemma StoredBoth(v: Words, len: nat, l3: nat, t: Tuple, nat4: RevNat, loopback: bool)
    requires |v| == WordCount(len)
    ensures loopback && ChangeAddrs(v, len, l3, t, Some(t.saddr), Some(nat4.address)).o.r.Ok? ==>
              InBounds(len, l3 + IP_DADDR, 2)
  {
    hide Amend, Diff, Add, SetAddr;
  }

  /** Replies of connections without a known frontend are left alone. */
  lemma NoFrontend(v: Words, len: nat, l3: nat, l4: nat, t: Tuple, revNat: map<U16, RevNat>, s: Info, hasL4: bool,
                   opt: Options)
    requires |v| == WordCount(len) && s.natPort == 0 && s.revNatIndex !in revNat
    ensures RevNatReply(v, len, l3, l4, t, revNat, s, hasL4, opt) == Translated(v, t, Ok(()))
  {
  }

  /** Other protocols than those with ports: ICMP gets its addresses translated and nothing else; the rest fails if a
      port would have to be restored. */
  lemma OtherReplies(v: Words, len: nat, l3: nat, l4: nat, t: Tuple, nat4: RevNat, loopback: bool, opt: Options)
    requires |v| == WordCount(len) && InBounds(len, l3, IP_WORDS) && l3 + IP_WORDS <= l4
    requires t.nexthdr !in {IPPROTO_TCP, IPPROTO_UDP} && (t.nexthdr == IPPROTO_SCTP ==> !opt.sctp)
    ensures var d := RevXlate(v, len, l3, l4, t, nat4, loopback, true, opt);
            && |d.w| == |v|
            && d.r == (if t.nexthdr == IPPROTO_ICMP || nat4.port == 0 then Ok(()) else Err(UnknownL4))
            && forall i :: l4 <= i < |v| ==> d.w[i] == v[i]
  {
    hide Amend, Diff, Add, Hi, Lo;
  }

  /** The packet `w` of flow `t` was sent to the backend and got there as `w1`, of flow `b`. Later fragments are known
      by the ports of the first one. */
  ghost predicate SentToBackend(w: Words, len: nat, l3: nat, l4: nat, t: Tuple, backend: Backend, opt: Options,
                                w1: Words, b: Tuple) {
    && |w| == WordCount(len) && Carries(w, l3, l4, t) && (t.nexthdr == IPPROTO_SCTP ==> opt.sctp)
    && var d := DnatRequest(w, len, l3, l4, t, backend, t.saddr == backend.address, HasL4Header(w, l3), opt);
    && d.r.Ok? && d.w == w1 && Carries(w1, l3, l4, b)
    && (HasL4Header(w, l3) || (b.dport == t.dport && b.sport == if backend.port != 0 then backend.port else t.sport))
  }

  lemma BackendFlow(w: Words, len: nat, l3: nat, l4: nat, t: Tuple, backend: Backend, opt: Options, w1: Words, b: Tuple)
    requires SentToBackend(w, len, l3, l4, t, backend, opt, w1, b)
    ensures b.(flags := t.flags) == AtBackend(t, backend, opt)
    ensures t.nexthdr == IPPROTO_SCTP && HasL4Header(w, l3) ==> backend.port == 0 || backend.port == t.sport
  {
    hide DnatRequest, Edited, AddrAt, HasL4Header, Proto;
    RequestArrives(w, len, l3, l4, t, backend, opt);
    RequestPorts(w, len, l3, l4, t, backend, opt);
  }

  /** The words reverse translation may change: the addresses, the source port and the checksums. */
  ghost predicate Translatable(proto: U8, l3: nat, l4: nat, hasL4: bool, i: int) {
    || i == l3 + IP_CSUM || l3 + IP_SADDR <= i < l3 + IP_WORDS
    || (hasL4 && proto != IPPROTO_SCTP && (i == l4 + L4_SPORT || i == l4 + CsumOffset(proto)))
  }

  /** `rep` is the packet `v` turned into an answer to the client's flow `t`: addresses and ports exactly swapped,
      checksums correct if they were, and every other word as the backend wrote it. */
  ghost predicate AnswersClient(rep: Translated, v: Words, v3: nat, v4: nat, t: Tuple, end: nat, l4Len: nat)
    requires v3 + IP_WORDS <= v4 <= end <= |v|
  {
    && rep.r.Ok? && |rep.w| == |v|
    && Carries(rep.w, v3, v4, Swapped(t))
    && IpValid(rep.w, v3)
    && (HasL4Header(v, v3) && L4Valid(v, v3, v4, end, l4Len) ==> L4Valid(rep.w, v3, v4, end, l4Len))
    && forall i :: 0 <= i < |v| && !Translatable(t.nexthdr, v3, v4, HasL4Header(v, v3), i) ==> rep.w[i] == v[i]
  }

  /** A complete and correct packet of flow `reply`. */
  ghost predicate IsReply(v: Words, vlen: nat, v3: nat, v4: nat, reply: Tuple, end: nat) {
    && |v| == WordCount(vlen) && Carries(v, v3, v4, reply) && Complete(v, vlen, v3, v4)
    && IpValid(v, v3) && v4 == v3 + HdrWords(v, v3) && v4 <= end <= |v|
  }

  /** The round trip of the packets. The client's packet `w`, of flow `t`, reaches a backend (its own address
      included) as `w1`, of flow `b`; the packet `v` is of the reverse flow. Reverse translation succeeds and makes it
      an answer to the client. */
  lemma ServiceRoundTrip(w: Words, len: nat, l3: nat, l4: nat, t: Tuple, backend: Backend, w1: Words, b: Tuple,
                         v: Words, vlen: nat, v3: nat, v4: nat, reply: Tuple,
                         revNat: map<U16, RevNat>, s: Info, opt: Options, end: nat, l4Len: nat)
    requires SentToBackend(w, len, l3, l4, t, backend, opt, w1, b)
    requires s.loopback == (t.saddr == backend.address) && Remembers(revNat, s, t)
    requires t.sport != 0 || backend.port == 0
    requires IsReply(v, vlen, v3, v4, reply, end) && reply == Swapped(b).(flags := reply.flags)
    requires t.nexthdr == IPPROTO_SCTP && HasL4Header(v, v3) ==> HasL4Header(w, l3)
    ensures AnswersClient(RevNatReply(v, vlen, v3, v4, reply, revNat, s, HasL4Header(v, v3), opt), v, v3, v4, t, end,
                          l4Len)
  {
    hide DnatRequest, RevXlate, Edited, AddrAt, HasL4Header, Proto, IpValid, L4Valid, Complete;
    BackendFlow(w, len, l3, l4, t, backend, opt, w1, b);
    var loopback, hasL4 := t.saddr == backend.address, HasL4Header(v, v3);
    var nat4 := RevNat(t.daddr, t.sport);
    assert FrontendOf(revNat, s) == Some(nat4);
    ReplySucceeds(v, vlen, v3, v4, reply, nat4, loopback, opt);
    var e := ReplyEdit(v3, v4, reply, nat4, loopback, hasL4);
    ReplyMeaning(v, vlen, v3, v4, reply, nat4, loopback, hasL4, opt);
    var v' := RevXlate(v, vlen, v3, v4, reply, nat4, loopback, hasL4, opt).w;
    EditCarries(v, v', e, reply, Swapped(t));
    EditStaysValid(v, v', e, end, l4Len);
  }

  lemma RequestPorts(w: Words, len: nat, l3: nat, l4: nat, t: Tuple, backend: Backend, opt: Options)
    requires |w| == WordCount(len) && Carries(w, l3, l4, t) && (t.nexthdr == IPPROTO_SCTP ==> opt.sctp)
    requires DnatRequest(w, len, l3, l4, t, backend, t.saddr == backend.address, HasL4Header(w, l3), opt).r.Ok?
    ensures t.nexthdr == IPPROTO_SCTP && HasL4Header(w, l3) ==> backend.port == 0 || backend.port == t.sport
  {
    hide DnatRequest, Edited, AddrAt, HasL4Header, Proto;
    RequestMeaning(w, len, l3, l4, t, backend, t.saddr == backend.address, HasL4Header(w, l3), opt);
  }

  /** A frontend on port 0 is the one exception: the backend's port is not translated back. */
  lemma PortRestoredIff(v: Words, vlen: nat, v3: nat, v4: nat, t: Tuple, backend: Backend, reply: Tuple,
                        revNat: map<U16, RevNat>, s: Info, opt: Options)
    requires s.loopback == (t.saddr == backend.address) && Remembers(revNat, s, t)
    requires |v| == WordCount(vlen) && Carries(v, v3, v4, reply) && HasL4Header(v, v3)
    requires reply == Swapped(AtBackend(t, backend, opt)).(flags := reply.flags)
    requires t.nexthdr == IPPROTO_SCTP ==> opt.sctp
    requires RevNatReply(v, vlen, v3, v4, reply, revNat, s, true, opt).r.Ok?
    ensures var v' := RevNatReply(v, vlen, v3, v4, reply, revNat, s, true, opt).w;
            |v'| == |v| && (v'[v4 + L4_SPORT] == t.sport <==> t.sport != 0 || backend.port == 0)
  {
    hide RevXlate, Edited, AddrAt, HasL4Header, Proto;
    var nat4 := RevNat(t.daddr, t.sport);
    var e := ReplyEdit(v3, v4, reply, nat4, s.loopback, true);
    ReplyMeaning(v, vlen, v3, v4, reply, nat4, s.loopback, true, opt);
    var v' := RevXlate(v, vlen, v3, v4, reply, nat4, s.loopback, true, opt).w;
    EditCarries(v, v', e, reply, Swapped(t).(dport := e.newPort));
  }

  /** A UDP reply from the backend 10.0.0.9:8080 to the client 10.0.0.2:40000 of a frontend on port 0. */
  const PORT_ZERO_REPLY: Words := [0x4500, 28, 0, 0, 0x4011, 0x66C7, 0x0A00, 9, 0x0A00, 2, 8080, 40000, 8, 0]
  const PORT_ZERO_TUPLE := Tuple(0x0A00_0002, 0x0A00_0009, 8080, 40000, IPPROTO_UDP, F_IN)

  /** Its source address becomes the frontend's, its source port stays the backend's. */
  lemma PortZeroExample(opt: Options)
    ensures var s, revNat := NO_INFO.(revNatIndex := 1), map[1 := RevNat(0x0A60_0001, 0)];
            && |PORT_ZERO_REPLY| == WordCount(28) && Carries(PORT_ZERO_REPLY, 0, 10, PORT_ZERO_TUPLE)
            && var rep := RevNatReply(PORT_ZERO_REPLY, 28, 0, 10, PORT_ZERO_TUPLE, revNat, s, true, opt);
            rep.r.Ok? && |rep.w| == 14 && AddrAt(rep.w, IP_SADDR) == 0x0A60_0001 && rep.w[10 + L4_SPORT] == 8080
  {
    hide Amend, Diff, Add;
  }

  // ---------------------------------------------------------------- the tracked connection

  /** What conntrack reads in a packet of flow `t`. */
  ghost predicate Reads(p: Pkt, t: Tuple) {
    p.saddr == t.saddr && p.daddr == t.daddr && p.proto == t.nexthdr && p.ports == Ok((t.dport, t.sport))
  }

  /** The stored state has the frontend and the loopback flag of the state it was stored from. */
  lemma StoredRemembers(revNat: map<U16, RevNat>, s: Info, t: Tuple)
    ensures Stored(s, Egress).loopback == s.loopback
    ensures Remembers(revNat, Stored(s, Egress), t) == Remembers(revNat, s, t)
  {
  }

  /** The round trip of the connection. The translated request is new to conntrack, which stores the frontend and
      the loopback flag with its entry. After any run that keeps the entry's state, the backend's packet is found to
      be a reply of that entry, and translating it back with the state found there makes it an answer to the client. */
  lemma TrackedRoundTrip(w: Words, len: nat, l3: nat, l4: nat, t: Tuple, backend: Backend, w1: Words, b: Tuple,
                         v: Words, vlen: nat, v3: nat, v4: nat, reply: Tuple,
                         revNat: map<U16, RevNat>, s: Info, opt: Options, end: nat, l4Len: nat,
                         ct: Table, p: Pkt, q: Pkt, now: U64, now': U64, ops: seq<ConntrackLaws.Op>, withRelated: bool,
                         cfg: Config)
    requires SentToBackend(w, len, l3, l4, t, backend, opt, w1, b)
    requires s.loopback == (t.saddr == backend.address) && Remembers(revNat, s, t)
    requires t.sport != 0 || backend.port == 0
    requires IsReply(v, vlen, v3, v4, reply, end) && reply == Swapped(b).(flags := reply.flags)
    requires t.nexthdr == IPPROTO_SCTP && HasL4Header(v, v3) ==> HasL4Header(w, l3)
    requires Reads(p, b) && Reads(q, reply) && cfg.sctp == opt.sctp && PacketFlags(q).Ok?
    requires var f := LookupPacket(ct, p, Egress, Bidir, now, cfg);
             && f.r == Ok(New)
             && forall i :: 0 <= i < |ops| ==> ConntrackLaws.KeepsInfo(ops[i], f.tuple, Stored(s, Egress))
    ensures var f := LookupPacket(ct, p, Egress, Bidir, now, cfg);
            var made := CreateEntry(f.m, withRelated, f.tuple, Egress, Some(s), p.len, now, true, true, cfg).0;
            var ct' := ConntrackLaws.RunFrom(made, ops, cfg);
            && f.tuple in ct'
            && (!Replies.Restarts(q, ct'[f.tuple]) ==>
                  var g := LookupPacket(ct', q, Ingress, Bidir, now', cfg);
                  && g.r == Ok(Reply) && g.info.Some?
                  && AnswersClient(RevNatReply(v, vlen, v3, v4, reply, revNat, g.info.value, HasL4Header(v, v3), opt),
                                   v, v3, v4, t, end, l4Len))
  {
    hide SentToBackend, IsReply, AnswersClient, RevNatReply, Remembers, LookupPacket, CreateEntry, HasL4Header;
    ReadsAnswers(p, q, b, reply, cfg, w, len, l3, l4, t, backend, opt, w1);
    Replies.ReplyState(ct, p, q, Egress, now, now', ops, withRelated, s, cfg);
    StoredRemembers(revNat, s, t);
    ServiceRoundTrip(w, len, l3, l4, t, backend, w1, b, v, vlen, v3, v4, reply, revNat, Stored(s, Egress), opt, end,
                     l4Len);
  }

  lemma ReadsAnswers(p: Pkt, q: Pkt, b: Tuple, reply: Tuple, cfg: Config, w: Words, len: nat, l3: nat, l4: nat,
                     t: Tuple, backend: Backend, opt: Options, w1: Words)
    requires SentToBackend(w, len, l3, l4, t, backend, opt, w1, b) && cfg.sctp == opt.sctp
    requires Reads(p, b) && Reads(q, reply) && reply == Swapped(b).(flags := reply.flags)
    ensures Replies.Answers(q, p, cfg)
  {
    hide DnatRequest, AddrAt, HasL4Header;
    BackendFlow(w, len, l3, l4, t, backend, opt, w1, b);
  }
}
