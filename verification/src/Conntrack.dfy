/** Connection tracking: the entry machine, lookups in both directions and entry creation.

    The TCP map and the map for the other protocols are one table here; the protocol is part of the key, so
    their key spaces are disjoint. */
module Conntrack {
  import opened Net

  /** The low byte of the TCP flags, one field per bit. */
  datatype TcpFlags = TcpFlags(fin: bool, syn: bool, rst: bool, psh: bool, ack: bool, urg: bool, ece: bool, cwr: bool) {

    function And(o: TcpFlags): TcpFlags {
      TcpFlags(fin && o.fin, syn && o.syn, rst && o.rst, psh && o.psh, ack && o.ack, urg && o.urg, ece && o.ece,
               cwr && o.cwr)
    }

    function Or(o: TcpFlags): TcpFlags {
      TcpFlags(fin || o.fin, syn || o.syn, rst || o.rst, psh || o.psh, ack || o.ack, urg || o.urg, ece || o.ece,
               cwr || o.cwr)
    }
  }

  const NO_FLAGS := TcpFlags(false, false, false, false, false, false, false, false)
  const ONLY_SYN := NO_FLAGS.(syn := true)

  datatype Dir = Egress | Ingress | Service
  datatype Scope = Forward | Reverse | Bidir
  datatype Status = New | Established | Reply | Related
  datatype Action = Unspec | Create | Close

  /** What a caller stores in an entry and reads back from it. */
  datatype Info = Info(
    revNatIndex: U16, backendId: U32, natAddr: Addr, natPort: Port, loopback: bool, nodePort: bool,
    dsrInternal: bool, proxyRedirect: bool, fromL7lb: bool, fromTunnel: bool, needDsrInfo: bool, srcSecId: U32)

  const NO_INFO := Info(0, 0, 0, 0, false, false, false, false, false, false, false, 0)

  /** struct ct_entry */
  datatype Entry = Entry(
    lifetime: U32, rxClosing: bool, txClosing: bool, seenNonSyn: bool,
    txFlags: TcpFlags, rxFlags: TcpFlags, lastTx: U32, lastRx: U32, packets: U64, bytes: U64, info: Info)

  const ZERO_ENTRY := Entry(0, false, false, false, NO_FLAGS, NO_FLAGS, 0, 0, 0, 0, NO_INFO)

  type Table = map<Tuple, Entry>

  /** Timeouts and intervals are already in units of the monotonic clock. */
  datatype Config = Config(
    reportInterval: U32, reportMask: TcpFlags,
    tcpLifetime: U32, otherLifetime: U32, svcTcpLifetime: U32, svcOtherLifetime: U32,
    synTimeout: U32, closeTimeout: U32, rebalance: U32,
    accounting: bool, nodeport: bool, dsr: bool, sctp: bool, extendedProtocols: bool)

  // ---------------------------------------------------------------- the entry machine

  /** tcp_is_syn: SYN without ACK. */
  predicate BareSyn(flags: TcpFlags) { flags.syn && !flags.ack }

  /** ct_tcp_select_action */
  function SelectAction(flags: TcpFlags): Action {
    if flags.rst || flags.fin then Close
    else if BareSyn(flags) then Create
    else Unspec
  }

  predicate Alive(e: Entry) { !e.rxClosing || !e.txClosing }

  predicate Closing(e: Entry) { e.rxClosing || e.txClosing }

  predicate SeenBothSyns(e: Entry) { e.rxFlags.syn && e.txFlags.syn }

  function FlagsSeen(e: Entry, dir: Dir): TcpFlags { if dir.Ingress? then e.rxFlags else e.txFlags }

  function LastReport(e: Entry, dir: Dir): U32 { if dir.Ingress? then e.lastRx else e.lastTx }

  function Now32(now: U64): U32 { now % U32_SIZE }

  /** Whether __ct_update_timeout asks for a report. */
  predicate ReportDue(e: Entry, dir: Dir, flags: TcpFlags, cfg: Config, now: U64) {
    || (LastReport(e, dir) + cfg.reportInterval) % U32_SIZE < Now32(now)
    || FlagsSeen(e, dir) != flags.And(cfg.reportMask).Or(FlagsSeen(e, dir))
  }

  /** __ct_update_timeout */
  function UpdateTimeout(e: Entry, lifetime: U32, dir: Dir, flags: TcpFlags, cfg: Config, now: U64): (r: Entry)
    ensures r.rxClosing == e.rxClosing && r.txClosing == e.txClosing && r.info == e.info
    ensures r.lifetime == (Now32(now) + lifetime) % U32_SIZE
    ensures FlagsSeen(r, dir) == flags.And(cfg.reportMask).Or(FlagsSeen(e, dir))
  {
    var e1 := e.(lifetime := (Now32(now) + lifetime) % U32_SIZE);
    var seen := flags.And(cfg.reportMask).Or(FlagsSeen(e, dir));
    if !ReportDue(e, dir, flags, cfg, now) then e1
    else if dir.Ingress? then e1.(rxFlags := seen, lastRx := Now32(now))
    else e1.(txFlags := seen, lastTx := Now32(now))
  }

  function Lifetime(e: Entry, tcp: bool, dir: Dir, cfg: Config): U32 {
    if !tcp then if dir.Service? then cfg.svcOtherLifetime else cfg.otherLifetime
    else if !e.seenNonSyn then cfg.synTimeout
    else if dir.Service? then cfg.svcTcpLifetime else cfg.tcpLifetime
  }

  /** ct_update_timeout */
  function Refresh(e: Entry, tcp: bool, dir: Dir, flags: TcpFlags, cfg: Config, now: U64): (r: Entry)
    ensures r.rxClosing == e.rxClosing && r.txClosing == e.txClosing && r.info == e.info
    ensures FlagsSeen(r, dir) == flags.And(cfg.reportMask).Or(FlagsSeen(e, dir))
  {
    var e1 := if tcp then e.(seenNonSyn := e.seenNonSyn || !flags.syn) else e;
    UpdateTimeout(e1, Lifetime(e1, tcp, dir, cfg), dir, flags, cfg, now)
  }

  /** Packet and byte counters, with 64-bit wrap-around. */
  function Account(e: Entry, len: nat, cfg: Config): (r: Entry)
    ensures r == e.(packets := r.packets, bytes := r.bytes)
  {
    if cfg.accounting then e.(packets := (e.packets + 1) % U64_SIZE, bytes := (e.bytes + len) % U64_SIZE) else e
  }

  /** One lookup: direction, protocol facts of the packet, the entry types the caller accepts. */
  datatype Query = Query(
    dir: Dir, tcp: bool, flags: TcpFlags, action: Action, types: Types, revNat: U16, now: U64, len: nat)

  datatype Types = AnyType | OfTypes(nodePort: bool, dsr: bool, svc: bool)

  /** ct_entry_matches_types, for callers that pass a state (revNat is its rev_nat_index). */
  predicate Matches(e: Entry, q: Query, cfg: Config) {
    match q.types
    case AnyType => true
    case OfTypes(nodePort, dsr, svc) =>
      || (svc && e.info.revNatIndex == q.revNat)
      || (cfg.nodeport && nodePort && e.info.nodePort && e.info.revNatIndex != 0
          && (q.revNat == 0 || e.info.revNatIndex == q.revNat))
      || (cfg.nodeport && cfg.dsr && dsr && e.info.dsrInternal)
  }

  /** A SYN may rebalance a closing service connection. */
  predicate Rebalances(e: Entry, q: Query, cfg: Config) {
    q.dir.Service? && q.flags.syn && Closing(e) && (e.lastTx + cfg.rebalance) % U32_SIZE <= q.now
  }

  predicate Hits(m: Table, key: Tuple, q: Query, cfg: Config) {
    key in m && Matches(m[key], q, cfg) && !Rebalances(m[key], q, cfg)
  }

  function MarkClosing(e: Entry, q: Query): Entry {
    if q.dir.Service? || (!SeenBothSyns(e) && q.flags.rst) then e.(rxClosing := true, txClosing := true)
    else if q.dir.Ingress? then e.(rxClosing := true)
    else e.(txClosing := true)
  }

  /** A SYN on this entry starts a new connection. */
  predicate Reopens(e: Entry, q: Query) { q.action.Create? && Closing(e) }

  /** A reopened entry forgets how the old connection closed and which flags it showed. */
  function Reopened(e: Entry, q: Query, cfg: Config): Entry {
    Refresh(e.(rxClosing := false, txClosing := false, rxFlags := NO_FLAGS, txFlags := NO_FLAGS, seenNonSyn := false),
            q.tcp, q.dir, q.flags, cfg, q.now)
  }

  /** A closing packet marks its direction, and gives a fully closed entry the close timeout. */
  function Closed(e: Entry, q: Query, cfg: Config): (r: Entry)
    ensures r.info == e.info && (e.rxClosing ==> r.rxClosing) && (e.txClosing ==> r.txClosing) && Closing(r)
  {
    var e1 := MarkClosing(e, q);
    if Alive(e1) then e1 else UpdateTimeout(e1, cfg.closeTimeout, q.dir, q.flags, cfg, q.now)
  }

  /** What a lookup that hits does to the entry. */
  function Touch(e: Entry, q: Query, cfg: Config): Entry {
    var e1 := if Alive(e) then Refresh(e, q.tcp, q.dir, q.flags, cfg, q.now) else e;
    var e2 := Account(e1, q.len, cfg);
    match q.action
    case Unspec => e2
    case Create => if Closing(e2) then Reopened(e2, q, cfg) else e2
    case Close => Closed(e2, q, cfg)
  }

  datatype Looked = Looked(m: Table, status: Status, info: Option<Info>)

  /** __ct_lookup */
  function Lookup(m: Table, key: Tuple, q: Query, cfg: Config): Looked {
    if !Hits(m, key, q, cfg) then Looked(m, New, None)
    else
      var e := m[key];
      var m' := m[key := Touch(e, q, cfg)];
      if Reopens(e, q) then Looked(m', New, None) else Looked(m', Established, Some(e.info))
  }

  // ---------------------------------------------------------------- packets and tuples

  /** A packet as conntrack reads it: `ports` is the outcome of loading (source, destination) port, `icmp` type
      and identifier if readable, `flags` the TCP flags if readable. */
  datatype Pkt = Pkt(
    saddr: Addr, daddr: Addr, proto: U8, fragment: bool, hasL4: bool,
    ports: Result<(Port, Port)>, icmp: Option<(U8, Port)>, flags: Option<TcpFlags>, len: nat)

  /** ct_lookup_select_tuple_type */
  function TupleType(dir: Dir, scope: Scope): Flags {
    if dir.Service? then F_SERVICE
    else if scope.Forward? then (if dir.Egress? then F_OUT else F_IN)
    else if dir.Egress? then F_IN else F_OUT
  }

  predicate IcmpErrorType(kind: U8) {
    kind == ICMP_DEST_UNREACH || kind == ICMP_TIME_EXCEEDED || kind == ICMP_PARAMETERPROB
  }

  /** ct_extract_ports4; the tuple has the ports of the packet exchanged. */
  function Extract(p: Pkt, flags: Flags, cfg: Config): Result<Tuple> {
    var t := Tuple(p.daddr, p.saddr, 0, 0, p.proto, flags);
    if p.proto == IPPROTO_ICMP then
      if p.fragment then Err(Invalid)
      else match p.icmp
        case None => Err(InvalidHdr)
        case Some((kind, ident)) =>
          if IcmpErrorType(kind) then Ok(t.(flags := flags.(related := true)))
          else if kind == ICMP_ECHOREPLY then Ok(t.(sport := ident))
          else if kind == ICMP_ECHO then Ok(t.(dport := ident))
          else Ok(t)
    else if p.proto == IPPROTO_TCP || p.proto == IPPROTO_UDP || (p.proto == IPPROTO_SCTP && cfg.sctp) then
      match p.ports
      case Err(e) => Err(e)
      case Ok((sport, dport)) => Ok(t.(dport := sport, sport := dport))
    else if cfg.extendedProtocols then Ok(t)
    else Err(CtUnknownProto)
  }

  /** The TCP flags and the action of a packet; fragments without L4 header have neither. */
  function PacketFlags(p: Pkt): Result<(TcpFlags, Action)> {
    if p.proto == IPPROTO_TCP && p.hasL4 then
      match p.flags
      case None => Err(InvalidHdr)
      case Some(f) => Ok((f, SelectAction(f)))
    else Ok((NO_FLAGS, Unspec))
  }

  datatype Found = Found(m: Table, tuple: Tuple, r: Result<Status>, info: Option<Info>)

  /** __ct_lookup4 */
  function LookupTuple(m: Table, t: Tuple, p: Pkt, dir: Dir, scope: Scope, types: Types, revNat: U16, now: U64,
                       cfg: Config): Found {
    match PacketFlags(p)
    case Err(e) => Found(m, t, Err(e), None)
    case Ok((flags, action)) =>
      var q := Query(dir, p.proto == IPPROTO_TCP, flags, action, types, revNat, now, p.len);
      var first := Lookup(m, t, q, cfg);
      if scope.Forward? then Found(first.m, t, Ok(first.status), first.info)
      else if first.status != New then
        Found(first.m, t, Ok(if t.flags.related then Related else Reply), first.info)
      else if scope.Reverse? then Found(first.m, t, Ok(New), first.info)
      else
        var second := Lookup(first.m, t.Reverse(), q, cfg);
        Found(second.m, t.Reverse(), Ok(second.status), second.info)
  }

  /** ct_lookup4 with SCOPE_BIDIR or SCOPE_REVERSE, accepting any entry. */
  function LookupPacket(m: Table, p: Pkt, dir: Dir, scope: Scope, now: U64, cfg: Config): Found {
    match Extract(p, TupleType(dir, scope), cfg)
    case Err(e) => Found(m, Tuple(p.daddr, p.saddr, 0, 0, p.proto, TupleType(dir, scope)), Err(e), None)
    case Ok(t) =>
      LookupTuple(m, if scope.Forward? then t.SwapAddrs().SwapPorts() else t, p, dir, scope, AnyType, 0, now, cfg)
  }

  /** The fields ct_create_fill_entry takes over from the caller's state. */
  function Stored(state: Info, dir: Dir): Info {
    if dir.Service? then NO_INFO.(revNatIndex := state.revNatIndex, srcSecId := state.srcSecId,
                                  backendId := state.backendId)
    else state.(backendId := 0, needDsrInfo := false)
  }

  function FreshEntry(tcp: bool, dir: Dir, state: Option<Info>, now: U64, cfg: Config): Entry {
    var filled := if state.Some? then ZERO_ENTRY.(info := Stored(state.value, dir)) else ZERO_ENTRY;
    Refresh(filled, tcp, dir, if tcp then ONLY_SYN else NO_FLAGS, cfg, now)
  }

  /** The key under which errors related to a connection are found. */
  function RelatedKey(t: Tuple): Tuple {
    Tuple(t.daddr, t.saddr, 0, 0, IPPROTO_ICMP, t.flags.(related := true))
  }

  /** ct_create4; `withRelated` says whether the caller asked for the ICMP entry too. */
  function CreateEntry(m: Table, withRelated: bool, t: Tuple, dir: Dir, state: Option<Info>, len: nat, now: U64,
                       relatedOk: bool, mainOk: bool, cfg: Config): (Table, bool) {
    var e := FreshEntry(t.nexthdr == IPPROTO_TCP, dir, state, now, cfg);
    if withRelated && !relatedOk then (m, false)
    else
      var m1 := if withRelated then m[RelatedKey(t) := e] else m;
      if !mainOk then (m1, false)
      else (m1[t := if cfg.accounting then e.(packets := 1, bytes := len % U64_SIZE) else e], true)
  }

  /** ct_update_svc_entry */
  function UpdateBackend(m: Table, key: Tuple, backendId: U32, revNatIndex: U16): Table {
    if key !in m then m
    else m[key := m[key].(info := m[key].info.(backendId := backendId, revNatIndex := revNatIndex))]
  }

  /** The table, updated in place. */
  class CtMap {
    var table: Table

    constructor ()
      ensures table == map[]
    {
      table := map[];
    }

    /** The ACTION_CLOSE branch of __ct_lookup. */
    static method CloseEntry(e: Entry, q: Query, cfg: Config) returns (entry: Entry)
      ensures entry == Closed(e, q, cfg)
    {
      entry := e;
      if q.dir.Service? {
        entry := entry.(rxClosing := true, txClosing := true);
      } else if !SeenBothSyns(entry) && q.flags.rst {
        entry := entry.(rxClosing := true, txClosing := true);
      } else if q.dir.Ingress? {
        entry := entry.(rxClosing := true);
      } else {
        entry := entry.(txClosing := true);
      }
      if !Alive(entry) {
        entry := UpdateTimeout(entry, cfg.closeTimeout, q.dir, q.flags, cfg, q.now);
      }
    }

    /** __ct_lookup */
    method Probe(key: Tuple, q: Query, cfg: Config) returns (status: Status, info: Option<Info>)
      modifies this
      ensures Looked(table, status, info) == Lookup(old(table), key, q, cfg)
    {
      hide SeenBothSyns, Matches, Refresh, Closed, Account, Rebalances;
      if key !in table { return New, None; }
      var entry := table[key];
      if !Matches(entry, q, cfg) { return New, None; }
      if Rebalances(entry, q, cfg) { return New, None; }
      if Alive(entry) {
        entry := Refresh(entry, q.tcp, q.dir, q.flags, cfg, q.now);
      }
      entry := Account(entry, q.len, cfg);
      if q.action.Create? && Closing(entry) {
        entry := entry.(rxClosing := false, txClosing := false);
        entry := entry.(rxFlags := NO_FLAGS, txFlags := NO_FLAGS);
        entry := entry.(seenNonSyn := false);
        entry := Refresh(entry, q.tcp, q.dir, q.flags, cfg, q.now);
        table := table[key := entry];
        return New, None;
      }
      if q.action.Close? {
        entry := CloseEntry(entry, q, cfg);
      }
      table := table[key := entry];
      status, info := Established, Some(entry.info);
    }

    /** __ct_lookup4 */
    method LookupBoth(t: Tuple, p: Pkt, dir: Dir, scope: Scope, types: Types, revNat: U16, now: U64, cfg: Config)
      returns (tuple: Tuple, r: Result<Status>, info: Option<Info>)
      modifies this
      ensures Found(table, tuple, r, info) == LookupTuple(old(table), t, p, dir, scope, types, revNat, now, cfg)
    {
      hide Lookup;
      tuple, info := t, None;
      var flags, action := NO_FLAGS, Unspec;
      if p.proto == IPPROTO_TCP && p.hasL4 {
        if p.flags.None? { return t, Err(InvalidHdr), None; }
        flags := p.flags.value;
        action := SelectAction(flags);
      }
      var q := Query(dir, p.proto == IPPROTO_TCP, flags, action, types, revNat, now, p.len);
      var status;
      if !scope.Forward? {
        status, info := Probe(tuple, q, cfg);
        if status != New { return tuple, Ok(if tuple.flags.related then Related else Reply), info; }
        if !scope.Bidir? { return tuple, Ok(status), info; }
        tuple := tuple.Reverse();
      }
      status, info := Probe(tuple, q, cfg);
      r := Ok(status);
    }

    /** ct_create4 */
    method Create4(withRelated: bool, t: Tuple, dir: Dir, state: Option<Info>, len: nat, now: U64,
                   relatedOk: bool, mainOk: bool, cfg: Config) returns (ok: bool)
      modifies this
      ensures (table, ok) == CreateEntry(old(table), withRelated, t, dir, state, len, now, relatedOk, mainOk, cfg)
    {
      var entry := ZERO_ENTRY;
      if state.Some? { entry := entry.(info := Stored(state.value, dir)); }
      var tcp := t.nexthdr == IPPROTO_TCP;
      entry := Refresh(entry, tcp, dir, if tcp then ONLY_SYN else NO_FLAGS, cfg, now);
      if withRelated {
        if !relatedOk { return false; }
        table := table[RelatedKey(t) := entry];
      }
      if cfg.accounting { entry := entry.(packets := 1, bytes := len % U64_SIZE); }
      if !mainOk { return false; }
      table := table[t := entry];
      ok := true;
    }
  }
}
