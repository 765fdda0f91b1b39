/** Every field of a connection's entry as a function of the packets that reached it: which directions are closed, how
    long the entry lives, and what it has counted. */
module ConntrackHistory {
  import opened Net
  import opened Conntrack
  import opened ConntrackLaws

  // ---------------------------------------------------------------- single packets

  /** Which TCP packets close and which open: RST and FIN close; a SYN opens if it is neither of them and carries no
      ACK. Later fragments do neither, and other protocols have no flags. */
  lemma PacketMeaning(p: Pkt)
    ensures PacketFlags(p) == Err(InvalidHdr) <==> p.proto == IPPROTO_TCP && p.hasL4 && p.flags.None?
    ensures PacketFlags(p).Err? ==> PacketFlags(p) == Err(InvalidHdr)
    ensures PacketFlags(p).Ok? ==>
              var (flags, action) := PacketFlags(p).value;
              if p.proto == IPPROTO_TCP && p.hasL4 then
                && flags == p.flags.value
                && (action == Close <==> flags.rst || flags.fin)
                && (action == Create <==> flags.syn && !flags.ack && !flags.rst && !flags.fin)
              else flags == NO_FLAGS && action == Unspec
  {
  }

  /** Which packets conntrack can key: TCP, UDP and SCTP by their ports, ICMP by type and identifier unless fragmented,
      other protocols only by configuration. Errors are keyed without identifier, requests and replies by the side
      that chose the identifier. */
  lemma KeyMeaning(p: Pkt, flags: Flags, cfg: Config)
    ensures var r := Extract(p, flags, cfg);
            var base := Tuple(p.daddr, p.saddr, 0, 0, p.proto, flags);
            if p.proto in {IPPROTO_TCP, IPPROTO_UDP} || (p.proto == IPPROTO_SCTP && cfg.sctp) then
              if p.ports.Err? then r == Err(p.ports.error)
              else r == Ok(base.(dport := p.ports.value.0, sport := p.ports.value.1))
            else if p.proto == IPPROTO_ICMP then
              if p.fragment then r == Err(Invalid)
              else if p.icmp.None? then r == Err(InvalidHdr)
              else
                var (kind, ident) := p.icmp.value;
                r == Ok(if kind in {3, 11, 12} then base.(flags := flags.(related := true))
                        else if kind == 0 then base.(sport := ident)
                        else if kind == 8 then base.(dport := ident)
                        else base)
            else r == if cfg.extendedProtocols then Ok(base) else Err(CtUnknownProto)
  {
  }

  /** Which entries a caller's types accept: each type by itself, and a set of types whatever one of them accepts. */
  lemma TypesMeaning(e: Entry, q: Query, cfg: Config, nodePort: bool, dsr: bool, svc: bool)
    ensures q.types == AnyType ==> Matches(e, q, cfg)
    ensures q.types == OfTypes(nodePort, dsr, svc) ==>
              (Matches(e, q, cfg) <==>
                 || (svc && q.revNat == e.info.revNatIndex)
                 || (dsr && e.info.dsrInternal && cfg.nodeport && cfg.dsr)
                 || (nodePort && e.info.nodePort && cfg.nodeport && e.info.revNatIndex != 0
                     && q.revNat in {0, e.info.revNatIndex}))
  {
  }

  /** What an entry takes over from its creator: a service entry which service and backend it is for, any other entry
      everything but those. */
  lemma StoredMeaning(s: Info, dir: Dir)
    ensures var i := Stored(s, dir);
            && i.revNatIndex == s.revNatIndex && i.srcSecId == s.srcSecId && !i.needDsrInfo
            && i.backendId == (if dir.Service? then s.backendId else 0)
            && (dir.Service? ==>
                  i == NO_INFO.(revNatIndex := i.revNatIndex, srcSecId := i.srcSecId, backendId := i.backendId))
            && (!dir.Service? ==>
                  && i.natAddr == s.natAddr && i.natPort == s.natPort && i.loopback == s.loopback
                  && i.nodePort == s.nodePort && i.dsrInternal == s.dsrInternal && i.proxyRedirect == s.proxyRedirect
                  && i.fromL7lb == s.fromL7lb && i.fromTunnel == s.fromTunnel)
  {
  }

  /** A connection survives the end of one of its directions: a closing packet without RST closes the direction it
      travels in and no other. */
  lemma HalfClose(e: Entry, q: Query, cfg: Config)
    requires !q.dir.Service? && q.action.Close? && !q.flags.rst && !Closing(e)
    ensures var e' := Touch(e, q, cfg);
            Alive(e') && e'.rxClosing == q.dir.Ingress? && e'.txClosing == q.dir.Egress?
  {
    hide Refresh, UpdateTimeout;
  }

  // ---------------------------------------------------------------- the history of an entry

  /** What the packets that reached an entry since it was created or reopened amount to. */
  datatype Past = Past(rx: bool, tx: bool, nonSyn: bool, lifetime: U32, packets: U64, bytes: U64)

  predicate Closed2(h: Past) { h.rx && h.tx }

  /** How long an entry lives after a packet: by protocol, by direction, and for TCP by whether more than SYNs was
      seen. */
  function Kept(tcp: bool, dir: Dir, nonSyn: bool, cfg: Config): U32 {
    match (tcp, nonSyn, dir)
    case (false, _, Service) => cfg.svcOtherLifetime
    case (false, _, _) => cfg.otherLifetime
    case (true, false, _) => cfg.synTimeout
    case (true, true, Service) => cfg.svcTcpLifetime
    case (true, true, _) => cfg.tcpLifetime
  }

  function At(now: U64, delay: U32): U32 { (now + delay) % U32_SIZE }

  ghost function Born(tcp: bool, dir: Dir, now: U64, packets: U64, bytes: U64, cfg: Config): Past {
    Past(false, false, false, At(now, Kept(tcp, dir, false, cfg)), packets, bytes)
  }

  /** Both directions have shown a SYN, the packet at hand included. */
  ghost predicate BothSyns(ops: seq<Op>, key: Tuple, cfg: Config) {
    Recorded(ops, key, true, cfg).syn && Recorded(ops, key, false, cfg).syn
  }

  /** A packet that hits the entry. An opening packet on a closing connection starts over. A closing packet closes its
      own direction; both of a service connection, which only shows one; and both with an RST before both SYNs. A closed
      entry keeps its end, except that closing packets restart the close timeout. */
  ghost function Seen(h: Past, q: Query, syns: bool, cfg: Config): Past {
    var reopened := q.action.Create? && (h.rx || h.tx);
    var all := q.action.Close? && (q.dir.Service? || (q.flags.rst && !syns));
    var rx := !reopened && (h.rx || all || (q.action.Close? && q.dir.Ingress?));
    var tx := !reopened && (h.tx || all || (q.action.Close? && q.dir.Egress?));
    var more := q.tcp && !q.flags.syn;
    var nonSyn := if reopened then more else if Closed2(h) then h.nonSyn else h.nonSyn || more;
    var lifetime := if q.action.Close? && rx && tx then At(q.now, cfg.closeTimeout)
                    else if Closed2(h) && !reopened then h.lifetime
                    else At(q.now, Kept(q.tcp, q.dir, nonSyn, cfg));
    Past(rx, tx, nonSyn, lifetime,
         if cfg.accounting then (h.packets + 1) % U64_SIZE else h.packets,
         if cfg.accounting then (h.bytes + q.len) % U64_SIZE else h.bytes)
  }

  ghost function PastOf(ops: seq<Op>, key: Tuple, cfg: Config): Past
    decreases |ops|
  {
    if ops == [] then Past(false, false, false, 0, 0, 0)
    else
      var before, op := ops[..|ops| - 1], ops[|ops| - 1];
      match op
      case Look(k, q) =>
        if k == key && Hits(Run(before, cfg), key, q, cfg)
        then Seen(PastOf(before, key, cfg), q, BothSyns(ops, key, cfg), cfg)
        else PastOf(before, key, cfg)
      case Make(withRelated, k, dir, _, len, now, relatedOk, mainOk) =>
        if withRelated && !relatedOk then PastOf(before, key, cfg)
        else if mainOk && key == k then
          Born(k.nexthdr == IPPROTO_TCP, dir, now, if cfg.accounting then 1 else 0,
               if cfg.accounting then len % U64_SIZE else 0, cfg)
        else if withRelated && key == RelatedKey(k) then Born(k.nexthdr == IPPROTO_TCP, dir, now, 0, 0, cfg)
        else PastOf(before, key, cfg)
      case SetBackend(_, _, _) => PastOf(before, key, cfg)
      case Evict(_) => PastOf(before, key, cfg)
  }

  ghost predicate Shows(e: Entry, h: Past) {
    && e.rxClosing == h.rx && e.txClosing == h.tx && e.seenNonSyn == h.nonSyn && e.lifetime == h.lifetime
    && e.packets == h.packets && e.bytes == h.bytes
  }

  lemma NowPlus(now: U64, delay: U32)
    ensures (Now32(now) + delay) % U32_SIZE == At(now, delay)
  {
  }

  lemma LifetimeKept(e: Entry, tcp: bool, dir: Dir, cfg: Config)
    ensures Lifetime(e, tcp, dir, cfg) == Kept(tcp, dir, e.seenNonSyn, cfg)
  {
  }

  lemma UpdateShows(e: Entry, lifetime: U32, dir: Dir, flags: TcpFlags, cfg: Config, now: U64)
    ensures var r := UpdateTimeout(e, lifetime, dir, flags, cfg, now);
            && r.lifetime == At(now, lifetime)
            && r.rxClosing == e.rxClosing && r.txClosing == e.txClosing && r.seenNonSyn == e.seenNonSyn
            && r.packets == e.packets && r.bytes == e.bytes
  {
    NowPlus(now, lifetime);
  }

  lemma RefreshShows(e: Entry, tcp: bool, dir: Dir, flags: TcpFlags, cfg: Config, now: U64)
    ensures var r := Refresh(e, tcp, dir, flags, cfg, now); var nonSyn := e.seenNonSyn || (tcp && !flags.syn);
            && r.seenNonSyn == nonSyn && r.lifetime == At(now, Kept(tcp, dir, nonSyn, cfg))
            && r.rxClosing == e.rxClosing && r.txClosing == e.txClosing
            && r.packets == e.packets && r.bytes == e.bytes
  {
    hide UpdateTimeout, Lifetime, Kept, At;
    var e1 := if tcp then e.(seenNonSyn := e.seenNonSyn || !flags.syn) else e;
    LifetimeKept(e1, tcp, dir, cfg);
    UpdateShows(e1, Lifetime(e1, tcp, dir, cfg), dir, flags, cfg, now);
  }

  /** The entry after the common part of a hit. */
  function Met(e: Entry, q: Query, cfg: Config): Entry {
    Account(if Alive(e) then Refresh(e, q.tcp, q.dir, q.flags, cfg, q.now) else e, q.len, cfg)
  }

  lemma MetShows(e: Entry, h: Past, q: Query, cfg: Config)
    requires Shows(e, h)
    ensures var nonSyn := if Closed2(h) then h.nonSyn else h.nonSyn || (q.tcp && !q.flags.syn);
            Shows(Met(e, q, cfg),
                  h.(nonSyn := nonSyn,
                     lifetime := if Closed2(h) then h.lifetime else At(q.now, Kept(q.tcp, q.dir, nonSyn, cfg)),
                     packets := if cfg.accounting then (h.packets + 1) % U64_SIZE else h.packets,
                     bytes := if cfg.accounting then (h.bytes + q.len) % U64_SIZE else h.bytes))
  {
    hide Refresh, Kept, At;
    RefreshShows(e, q.tcp, q.dir, q.flags, cfg, q.now);
  }

  lemma OpenShows(e: Entry, h: Past, q: Query, cfg: Config, syns: bool)
    requires Shows(e, h) && !q.action.Close?
    ensures Shows(Touch(e, q, cfg), Seen(h, q, syns, cfg))
  {
    hide Refresh, Kept, At, Account;
    MetShows(e, h, q, cfg);
    var e2 := Met(e, q, cfg);
    RefreshShows(e2.(rxClosing := false, txClosing := false, rxFlags := NO_FLAGS, txFlags := NO_FLAGS,
                     seenNonSyn := false), q.tcp, q.dir, q.flags, cfg, q.now);
  }

  lemma CloseShows(e: Entry, h: Past, q: Query, cfg: Config)
    requires Shows(e, h) && q.action.Close?
    ensures Shows(Touch(e, q, cfg), Seen(h, q, SeenBothSyns(Met(e, q, cfg)), cfg))
  {
    hide Refresh, UpdateTimeout, Kept, At, Account, SeenBothSyns;
    MetShows(e, h, q, cfg);
    var e2 := Met(e, q, cfg);
    UpdateShows(MarkClosing(e2, q), cfg.closeTimeout, q.dir, q.flags, cfg, q.now);
  }

  /** What a closing packet finds out about SYNs before it marks is what stays recorded. */
  lemma ClosingFlags(e: Entry, q: Query, cfg: Config, rx: bool)
    requires q.action.Close? && Alive(e)
    ensures Side(Touch(e, q, cfg), rx) == Side(Met(e, q, cfg), rx)
  {
    hide Refresh, Touch, TcpFlags.And, TcpFlags.Or;
    RefreshSide(e, q.tcp, q.dir, q.flags, cfg, q.now, rx);
    TouchSide(e, q, cfg, rx);
  }

  /** One hit. The flags that decide about an early RST are those after the packet. */
  lemma TouchShows(e: Entry, h: Past, q: Query, cfg: Config)
    requires Shows(e, h)
    ensures var e' := Touch(e, q, cfg); Shows(e', Seen(h, q, e'.rxFlags.syn && e'.txFlags.syn, cfg))
  {
    hide Touch, Met, Kept, At;
    var e' := Touch(e, q, cfg);
    if q.action.Close? {
      CloseShows(e, h, q, cfg);
      if Alive(e) {
        ClosingFlags(e, q, cfg, true);
        ClosingFlags(e, q, cfg, false);
      }
    } else {
      OpenShows(e, h, q, cfg, e'.rxFlags.syn && e'.txFlags.syn);
    }
  }

  /** In every reachable table, every entry is what its history says. */
  lemma {:induction false} EntryShowsPast(ops: seq<Op>, key: Tuple, cfg: Config)
    requires key in Run(ops, cfg)
    ensures Shows(Run(ops, cfg)[key], PastOf(ops, key, cfg))
    decreases |ops|
  {
    hide Touch, FreshEntry, Seen, Recorded, Matches, Rebalances, At, Kept;
    if ops != [] {
      var before, op := ops[..|ops| - 1], ops[|ops| - 1];
      var m := Run(before, cfg);
      if key in m { EntryShowsPast(before, key, cfg); }
      match op
      case Look(k, q) =>
        if k == key && Hits(m, key, q, cfg) {
          TouchShows(m[key], PastOf(before, key, cfg), q, cfg);
          FlagsAreUnion(ops, key, true, cfg);
          FlagsAreUnion(ops, key, false, cfg);
        }
      case Make(_, k, dir, state, _, now, _, _) => FreshShows(k.nexthdr == IPPROTO_TCP, dir, state, now, cfg);
      case SetBackend(_, _, _) =>
      case Evict(_) =>
    }
  }

  lemma FreshShows(tcp: bool, dir: Dir, state: Option<Info>, now: U64, cfg: Config)
    ensures Shows(FreshEntry(tcp, dir, state, now, cfg), Born(tcp, dir, now, 0, 0, cfg))
  {
    hide Refresh, Kept, At;
    var filled := if state.Some? then ZERO_ENTRY.(info := Stored(state.value, dir)) else ZERO_ENTRY;
    RefreshShows(filled, tcp, dir, if tcp then ONLY_SYN else NO_FLAGS, cfg, now);
  }

  // ---------------------------------------------------------------- when a connection is closed

  /** Packet `i` of the run closes one direction of the connection: it travels in it, or the connection is a service's,
      or it is an RST before both SYNs. */
  ghost predicate ClosesAt(ops: seq<Op>, i: int, key: Tuple, rx: bool, cfg: Config)
    requires 0 <= i < |ops|
  {
    && ops[i].Look? && ops[i].key == key && ops[i].q.action.Close? && Hits(Run(ops[..i], cfg), key, ops[i].q, cfg)
    && var q := ops[i].q;
    || q.dir == (if rx then Ingress else Egress)
    || q.dir.Service?
    || (q.flags.rst && !BothSyns(ops[..i + 1], key, cfg))
  }

  /** Step `i` of the run starts the connection: it creates the entry, or opens it again while it is closing. */
  ghost predicate StartsAt(ops: seq<Op>, i: int, key: Tuple, cfg: Config)
    requires 0 <= i < |ops|
  {
    match ops[i]
    case Look(k, q) =>
      && k == key && q.action.Create? && Hits(Run(ops[..i], cfg), key, q, cfg)
      && (Run(ops[..i], cfg)[key].rxClosing || Run(ops[..i], cfg)[key].txClosing)
    case Make(withRelated, k, _, _, _, _, relatedOk, mainOk) =>
      && !(withRelated && !relatedOk)
      && ((mainOk && key == k) || (withRelated && key == RelatedKey(k)))
    case SetBackend(_, _, _) => false
    case Evict(_) => false
  }

  /** The direction was closed by some packet since the connection last started. */
  ghost predicate ClosedSince(ops: seq<Op>, key: Tuple, rx: bool, cfg: Config) {
    exists i :: 0 <= i < |ops| && ClosesAt(ops, i, key, rx, cfg)
                && forall j :: i < j < |ops| ==> !StartsAt(ops, j, key, cfg)
  }

  lemma PrefixAgrees(ops: seq<Op>, i: int, key: Tuple, rx: bool, cfg: Config)
    requires 0 <= i < |ops| - 1
    ensures var before := ops[..|ops| - 1];
            ClosesAt(before, i, key, rx, cfg) == ClosesAt(ops, i, key, rx, cfg)
            && StartsAt(before, i, key, cfg) == StartsAt(ops, i, key, cfg)
  {
    hide Hits, BothSyns, Run;
    var before := ops[..|ops| - 1];
    assert before[..i] == ops[..i] && before[..i + 1] == ops[..i + 1] && before[i] == ops[i];
  }

  lemma SinceStep(ops: seq<Op>, key: Tuple, rx: bool, cfg: Config)
    requires ops != []
    ensures var n := |ops| - 1;
            ClosedSince(ops, key, rx, cfg) <==>
              ClosesAt(ops, n, key, rx, cfg) || (ClosedSince(ops[..n], key, rx, cfg) && !StartsAt(ops, n, key, cfg))
  {
    hide ClosesAt, StartsAt;
    var n := |ops| - 1;
    var before := ops[..n];
    forall i | 0 <= i < n
      ensures ClosesAt(before, i, key, rx, cfg) == ClosesAt(ops, i, key, rx, cfg)
      ensures StartsAt(before, i, key, cfg) == StartsAt(ops, i, key, cfg)
    {
      PrefixAgrees(ops, i, key, rx, cfg);
    }
    if ClosedSince(before, key, rx, cfg) && !StartsAt(ops, n, key, cfg) {
      var i :| 0 <= i < n && ClosesAt(before, i, key, rx, cfg)
               && forall j :: i < j < n ==> !StartsAt(before, j, key, cfg);
      assert ClosesAt(ops, i, key, rx, cfg);
      assert forall j :: i < j < |ops| ==> !StartsAt(ops, j, key, cfg);
    }
    if ClosedSince(ops, key, rx, cfg) && !ClosesAt(ops, n, key, rx, cfg) {
      var i :| 0 <= i < |ops| && ClosesAt(ops, i, key, rx, cfg)
               && forall j :: i < j < |ops| ==> !StartsAt(ops, j, key, cfg);
      assert ClosesAt(before, i, key, rx, cfg);
      assert forall j :: i < j < n ==> !StartsAt(before, j, key, cfg);
    }
  }

  lemma {:induction false} PastClosedSince(ops: seq<Op>, key: Tuple, rx: bool, cfg: Config)
    ensures (if rx then PastOf(ops, key, cfg).rx else PastOf(ops, key, cfg).tx) == ClosedSince(ops, key, rx, cfg)
    decreases |ops|
  {
    hide ClosedSince, Hits, BothSyns, Run, At, Kept;
    if ops == [] {
      NeverClosed(key, rx, cfg);
    } else {
      var n := |ops| - 1;
      var before, op := ops[..n], ops[n];
      SinceStep(ops, key, rx, cfg);
      PastClosedSince(before, key, rx, cfg);
      assert ops[..n + 1] == ops;
      if op.Look? && op.key == key && Hits(Run(before, cfg), key, op.q, cfg) {
        HitHasEntry(Run(before, cfg), key, op.q, cfg);
        EntryShowsPast(before, key, cfg);
      }
    }
  }

  lemma NeverClosed(key: Tuple, rx: bool, cfg: Config)
    ensures !ClosedSince([], key, rx, cfg)
  {
  }

  lemma HitHasEntry(m: Table, key: Tuple, q: Query, cfg: Config)
    requires Hits(m, key, q, cfg)
    ensures key in m
  {
  }

  /** In every reachable table a connection is closed iff each of its directions was closed since it last started: by
      a closing packet of its own, or by an RST before both SYNs, or, for a service, by any closing packet. */
  lemma ClosedIff(ops: seq<Op>, key: Tuple, cfg: Config)
    requires key in Run(ops, cfg)
    ensures !Alive(Run(ops, cfg)[key]) <==> ClosedSince(ops, key, true, cfg) && ClosedSince(ops, key, false, cfg)
  {
    hide ClosedSince, PastOf, Run;
    EntryShowsPast(ops, key, cfg);
    PastClosedSince(ops, key, true, cfg);
    PastClosedSince(ops, key, false, cfg);
  }

  // ---------------------------------------------------------------- reports

  /** When a packet is reported, on one CPU and without clock wrap: the interval since the last report has passed, or
      it shows a flag of interest that its direction had not shown. */
  lemma ReportedIff(e: Entry, dir: Dir, flags: TcpFlags, cfg: Config, now: U64)
    requires now < U32_SIZE && LastReport(e, dir) + cfg.reportInterval < U32_SIZE
    ensures var seen := FlagsSeen(e, dir); var mask := cfg.reportMask;
            ReportDue(e, dir, flags, cfg, now) <==>
              || now > LastReport(e, dir) + cfg.reportInterval
              || (flags.fin && mask.fin && !seen.fin) || (flags.syn && mask.syn && !seen.syn)
              || (flags.rst && mask.rst && !seen.rst) || (flags.psh && mask.psh && !seen.psh)
              || (flags.ack && mask.ack && !seen.ack) || (flags.urg && mask.urg && !seen.urg)
              || (flags.ece && mask.ece && !seen.ece) || (flags.cwr && mask.cwr && !seen.cwr)
  {
  }
}
