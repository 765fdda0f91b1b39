/** What conntrack promises over whole runs: lifetimes of closed connections, accumulation of TCP flags,
    throttling of trace reports, and recognition of replies. */
module ConntrackLaws {
  import opened Net
  import opened Conntrack
  import Arith

  // ---------------------------------------------------------------- one lookup

  /** A packet that neither opens nor closes cannot change a closed entry, apart from its counters; in
      particular it cannot extend its lifetime. */
  lemma DataCannotExtend(e: Entry, q: Query, cfg: Config)
    requires !Alive(e) && q.action.Unspec?
    ensures Touch(e, q, cfg) == e.(packets := Touch(e, q, cfg).packets, bytes := Touch(e, q, cfg).bytes)
  {
  }

  // ---------------------------------------------------------------- runs

  datatype Op =
    | Look(key: Tuple, q: Query)
    | Make(withRelated: bool, key: Tuple, dir: Dir, state: Option<Info>, len: nat, now: U64, relatedOk: bool,
           mainOk: bool)
    | SetBackend(key: Tuple, backendId: U32, revNatIndex: U16)
    | Evict(key: Tuple)

  function Apply(m: Table, op: Op, cfg: Config): Table {
    match op
    case Look(key, q) => Lookup(m, key, q, cfg).m
    case Make(withRelated, key, dir, state, len, now, relatedOk, mainOk) =>
      CreateEntry(m, withRelated, key, dir, state, len, now, relatedOk, mainOk, cfg).0
    case SetBackend(key, backendId, revNatIndex) => UpdateBackend(m, key, backendId, revNatIndex)
    case Evict(key) => m - {key}
  }

  function RunFrom(m: Table, ops: seq<Op>, cfg: Config): Table
    decreases |ops|
  {
    if ops == [] then m else Apply(RunFrom(m, ops[..|ops| - 1], cfg), ops[|ops| - 1], cfg)
  }

  /** The table after a run that starts with no connections. */
  function Run(ops: seq<Op>, cfg: Config): Table {
    RunFrom(map[], ops, cfg)
  }

  /** Nothing but eviction removes an entry. */
  lemma {:induction false} EntryPersists(m: Table, ops: seq<Op>, key: Tuple, cfg: Config)
    requires key in m && forall i :: 0 <= i < |ops| ==> !(ops[i].Evict? && ops[i].key == key)
    ensures key in RunFrom(m, ops, cfg)
    decreases |ops|
  {
    if ops != [] {
      EntryPersists(m, ops[..|ops| - 1], key, cfg);
    }
  }

  lemma TouchInfo(e: Entry, q: Query, cfg: Config)
    ensures Touch(e, q, cfg).info == e.info
  {
    hide UpdateTimeout, Refresh, Closed;
  }

  /** The operation neither removes the entry of `key` nor stores another state in it. */
  ghost predicate KeepsInfo(op: Op, key: Tuple, info: Info) {
    match op
    case Look(_, _) => true
    case Make(withRelated, k, dir, state, _, _, _, _) =>
      k == key || (withRelated && RelatedKey(k) == key) ==> state.Some? && Stored(state.value, dir) == info
    case SetBackend(k, _, _) => k != key
    case Evict(k) => k != key
  }

  lemma FreshInfo(tcp: bool, dir: Dir, state: Info, now: U64, cfg: Config)
    ensures FreshEntry(tcp, dir, Some(state), now, cfg).info == Stored(state, dir)
  {
    hide Refresh, Stored;
  }

  /** What a caller stored is what later lookups find. */
  lemma {:induction false} InfoPersists(m: Table, ops: seq<Op>, key: Tuple, info: Info, cfg: Config)
    requires key in m && m[key].info == info
    requires forall i :: 0 <= i < |ops| ==> KeepsInfo(ops[i], key, info)
    ensures key in RunFrom(m, ops, cfg) && RunFrom(m, ops, cfg)[key].info == info
    decreases |ops|
  {
    hide Touch, FreshEntry, Stored;
    if ops != [] {
      InfoPersists(m, ops[..|ops| - 1], key, info, cfg);
      var op := ops[|ops| - 1];
      assert KeepsInfo(op, key, info);
      match op
      case Look(k, q) => if k == key { TouchInfo(RunFrom(m, ops[..|ops| - 1], cfg)[key], q, cfg); }
      case Make(_, k, dir, state, _, now, _, _) =>
        if state.Some? { FreshInfo(k.nexthdr == IPPROTO_TCP, dir, state.value, now, cfg); }
      case SetBackend(_, _, _) =>
      case Evict(_) =>
    }
  }

  /** The time of the last closing packet that reached the entry of `key`. */
  ghost function LastClosing(ops: seq<Op>, key: Tuple, cfg: Config): Option<U64>
    decreases |ops|
  {
    if ops == [] then None
    else
      var before, op := ops[..|ops| - 1], ops[|ops| - 1];
      if op.Look? && op.key == key && op.q.action.Close? && Hits(Run(before, cfg), key, op.q, cfg)
      then Some(op.q.now) else LastClosing(before, key, cfg)
  }

  lemma TouchLifetime(e: Entry, q: Query, cfg: Config)
    ensures var e' := Touch(e, q, cfg);
            !Alive(e') ==>
              if q.action.Close? then e'.lifetime == (Now32(q.now) + cfg.closeTimeout) % U32_SIZE
              else !Alive(e) && e'.lifetime == e.lifetime
  {
    hide UpdateTimeout;
  }

  lemma FreshAlive(tcp: bool, dir: Dir, state: Option<Info>, now: U64, cfg: Config)
    ensures Alive(FreshEntry(tcp, dir, state, now, cfg))
  {
  }

  /** In every reachable state, a connection closed in both directions expires exactly one close timeout after
      its last closing packet. */
  lemma {:induction false} ClosedLifetime(ops: seq<Op>, key: Tuple, cfg: Config)
    requires key in Run(ops, cfg) && !Alive(Run(ops, cfg)[key])
    ensures LastClosing(ops, key, cfg).Some?
    ensures Run(ops, cfg)[key].lifetime ==
            (Now32(LastClosing(ops, key, cfg).value) + cfg.closeTimeout) % U32_SIZE
    decreases |ops|
  {
    hide Touch, FreshEntry;
    var before, op := ops[..|ops| - 1], ops[|ops| - 1];
    var m := Run(before, cfg);
    match op {
      case Look(k, q) =>
        if k == key && Hits(m, key, q, cfg) {
          TouchLifetime(m[key], q, cfg);
          if !q.action.Close? { ClosedLifetime(before, key, cfg); }
        } else {
          ClosedLifetime(before, key, cfg);
        }
      case Make(withRelated, k, dir, state, len, now, relatedOk, mainOk) =>
        FreshAlive(k.nexthdr == IPPROTO_TCP, dir, state, now, cfg);
        ClosedLifetime(before, key, cfg);
      case SetBackend(k, _, _) => ClosedLifetime(before, key, cfg);
      case Evict(k) => ClosedLifetime(before, key, cfg);
    }
  }

  // ---------------------------------------------------------------- TCP flags

  /** Whether a lookup that hits records the packet's flags for its direction. */
  predicate Records(e: Entry, q: Query) {
    Alive(e) || q.action.Close? || Reopens(e, q)
  }

  ghost function Side(e: Entry, rx: bool): TcpFlags { if rx then e.rxFlags else e.txFlags }

  /** The flags of one direction recorded since the entry was created or reopened. */
  ghost function Recorded(ops: seq<Op>, key: Tuple, rx: bool, cfg: Config): TcpFlags
    decreases |ops|
  {
    if ops == [] then NO_FLAGS
    else
      var before, op := ops[..|ops| - 1], ops[|ops| - 1];
      var m := Run(before, cfg);
      match op
      case Look(k, q) =>
        if k != key || !Hits(m, key, q, cfg) || !Records(m[key], q) then Recorded(before, key, rx, cfg)
        else
          var base := if Reopens(m[key], q) then NO_FLAGS else Recorded(before, key, rx, cfg);
          if q.dir.Ingress? == rx then q.flags.And(cfg.reportMask).Or(base) else base
      case Make(withRelated, k, dir, _, _, _, relatedOk, mainOk) =>
        if (withRelated ==> relatedOk) && ((withRelated && key == RelatedKey(k)) || (mainOk && key == k)) then
          if dir.Ingress? == rx && k.nexthdr == IPPROTO_TCP then ONLY_SYN.And(cfg.reportMask) else NO_FLAGS
        else Recorded(before, key, rx, cfg)
      case SetBackend(_, _, _) => Recorded(before, key, rx, cfg)
      case Evict(k) => Recorded(before, key, rx, cfg)
  }

  lemma UpdateSide(e: Entry, lifetime: U32, dir: Dir, flags: TcpFlags, cfg: Config, now: U64, rx: bool)
    ensures Side(UpdateTimeout(e, lifetime, dir, flags, cfg, now), rx) ==
            if dir.Ingress? == rx then flags.And(cfg.reportMask).Or(Side(e, rx)) else Side(e, rx)
  {
  }

  lemma RefreshSide(e: Entry, tcp: bool, dir: Dir, flags: TcpFlags, cfg: Config, now: U64, rx: bool)
    ensures Side(Refresh(e, tcp, dir, flags, cfg, now), rx) ==
            if dir.Ingress? == rx then flags.And(cfg.reportMask).Or(Side(e, rx)) else Side(e, rx)
  {
    hide UpdateTimeout;
    var e1 := if tcp then e.(seenNonSyn := e.seenNonSyn || !flags.syn) else e;
    UpdateSide(e1, Lifetime(e1, tcp, dir, cfg), dir, flags, cfg, now, rx);
  }

  lemma OrIdem(f: TcpFlags, g: TcpFlags)
    ensures g.Or(g.Or(f)) == g.Or(f)
  {
  }

  lemma OrNone(f: TcpFlags)
    ensures f.Or(NO_FLAGS) == f
  {
  }

  lemma ClosedSide(e: Entry, q: Query, cfg: Config, rx: bool)
    ensures var same := q.dir.Ingress? == rx;
            Side(Closed(e, q, cfg), rx) ==
            if same && !Alive(MarkClosing(e, q)) then q.flags.And(cfg.reportMask).Or(Side(e, rx)) else Side(e, rx)
  {
    hide UpdateTimeout;
    UpdateSide(MarkClosing(e, q), cfg.closeTimeout, q.dir, q.flags, cfg, q.now, rx);
  }

  lemma TouchSide(e: Entry, q: Query, cfg: Config, rx: bool)
    ensures var base := if Reopens(e, q) then NO_FLAGS else Side(e, rx);
            Side(Touch(e, q, cfg), rx) ==
            if Records(e, q) && q.dir.Ingress? == rx then q.flags.And(cfg.reportMask).Or(base) else base
  {
    hide UpdateTimeout, Refresh, Closed, TcpFlags.And, TcpFlags.Or;
    var e1 := if Alive(e) then Refresh(e, q.tcp, q.dir, q.flags, cfg, q.now) else e;
    var e2 := Account(e1, q.len, cfg);
    RefreshSide(e, q.tcp, q.dir, q.flags, cfg, q.now, rx);
    match q.action {
      case Unspec =>
      case Create =>
        RefreshSide(e2.(rxClosing := false, txClosing := false, rxFlags := NO_FLAGS, txFlags := NO_FLAGS,
                        seenNonSyn := false),
                    q.tcp, q.dir, q.flags, cfg, q.now, rx);
      case Close =>
        ClosedSide(e2, q, cfg, rx);
        OrIdem(Side(e, rx), q.flags.And(cfg.reportMask));
    }
  }

  /** A closed entry comes back to life only through a SYN; the lookup then reports a new connection, and the
      entry has forgotten everything but the SYN's own flags. */
  lemma RevivalOnlyBySyn(m: Table, key: Tuple, q: Query, cfg: Config)
    requires key in m && !Alive(m[key])
    ensures var l := Lookup(m, key, q, cfg);
            Alive(l.m[key]) ==>
              && q.action.Create? && l.status == New
              && !Closing(l.m[key])
              && FlagsSeen(l.m[key], q.dir) == q.flags.And(cfg.reportMask)
              && FlagsSeen(l.m[key], if q.dir.Ingress? then Egress else Ingress) == NO_FLAGS
  {
    hide UpdateTimeout, Refresh, Closed;
    TouchSide(m[key], q, cfg, true);
    TouchSide(m[key], q, cfg, false);
    OrNone(q.flags.And(cfg.reportMask));
  }

  lemma FreshSide(tcp: bool, dir: Dir, state: Option<Info>, now: U64, cfg: Config, rx: bool)
    ensures Side(FreshEntry(tcp, dir, state, now, cfg), rx) ==
            if dir.Ingress? == rx && tcp then ONLY_SYN.And(cfg.reportMask) else NO_FLAGS
  {
    hide Refresh;
    var filled := if state.Some? then ZERO_ENTRY.(info := Stored(state.value, dir)) else ZERO_ENTRY;
    RefreshSide(filled, tcp, dir, if tcp then ONLY_SYN else NO_FLAGS, cfg, now, rx);
  }

  /** In every reachable state, the flags-seen field of a direction is exactly the union of the masked flags
      recorded for it since the entry was created or reopened. */
  lemma {:induction false} FlagsAreUnion(ops: seq<Op>, key: Tuple, rx: bool, cfg: Config)
    requires key in Run(ops, cfg)
    ensures Side(Run(ops, cfg)[key], rx) == Recorded(ops, key, rx, cfg)
    decreases |ops|
  {
    hide Touch, FreshEntry;
    var before, op := ops[..|ops| - 1], ops[|ops| - 1];
    var m := Run(before, cfg);
    if key in m { FlagsAreUnion(before, key, rx, cfg); }
    match op {
      case Look(k, q) => if key in m { TouchSide(m[key], q, cfg, rx); }
      case Make(withRelated, k, dir, state, len, now, relatedOk, mainOk) =>
        FreshSide(k.nexthdr == IPPROTO_TCP, dir, state, now, cfg, rx);
      case SetBackend(k, _, _) =>
      case Evict(k) =>
    }
  }

  // ---------------------------------------------------------------- trace reports

  /** One call of the timeout update for a fixed direction. */
  datatype Update = Update(lifetime: U32, flags: TcpFlags, now: U64)

  function Reports(e: Entry, dir: Dir, us: seq<Update>, cfg: Config): nat
    decreases |us|
  {
    if us == [] then 0
    else
      var u := us[0];
      (if ReportDue(e, dir, u.flags, cfg, u.now) then 1 else 0) +
      Reports(UpdateTimeout(e, u.lifetime, dir, u.flags, cfg, u.now), dir, us[1..], cfg)
  }

  /** One CPU, times in order within [from, to], and no wrap of the 32-bit clock. */
  ghost predicate Ordered(us: seq<Update>, from: nat, to: nat, cfg: Config) {
    && from <= to && to + cfg.reportInterval < U32_SIZE
    && (forall i :: 0 <= i < |us| ==> from <= us[i].now <= to)
    && forall i, j :: 0 <= i < j < |us| ==> us[i].now <= us[j].now
  }

  lemma OrderedEnds(us: seq<Update>, from: nat, to: nat, cfg: Config)
    requires Ordered(us, from, to, cfg)
    ensures from <= to && to + cfg.reportInterval < U32_SIZE && (us != [] ==> from <= us[0].now <= to)
  {
  }

  lemma OrderedTail(us: seq<Update>, from: nat, from': nat, to: nat, cfg: Config)
    requires Ordered(us, from, to, cfg) && us != [] && from' <= us[0].now
    ensures Ordered(us[1..], from', to, cfg)
  {
  }

  function B(b: bool): nat { if b then 0 else 1 }

  /** Number of flags not seen yet. */
  function Unseen(f: TcpFlags): nat {
    B(f.fin) + B(f.syn) + B(f.rst) + B(f.psh) + B(f.ack) + B(f.urg) + B(f.ece) + B(f.cwr)
  }

  lemma UnseenShrinks(f: TcpFlags, g: TcpFlags)
    ensures f != g.Or(f) ==> Unseen(g.Or(f)) < Unseen(f)
    ensures f == g.Or(f) ==> Unseen(g.Or(f)) == Unseen(f)
  {
  }

  lemma AtLeast(k: nat, x: nat, n: nat)
    requires n > 0 && n * k <= x
    ensures k <= x / n
  {
    var q := x / n;
    assert x < n * q + n;
    if q < k { Arith.MulLe(n, q + 1, n, k); }
  }

  lemma GapMonotone(x: nat, y: nat, n: nat)
    requires n > 0 && x <= y
    ensures x / n <= y / n
  {
    assert n * (x / n) <= x;
    AtLeast(x / n, y, n);
  }

  lemma LongerGap(a: nat, b: nat, c: nat, n: nat)
    requires n > 0 && a + n <= b <= c
    ensures (c - b) / n + 1 <= (c - a) / n
  {
    var d := (c - b) / n;
    assert n * d <= c - b;
    assert n * (d + 1) == n * d + n;
    AtLeast(d + 1, c - a, n);
  }

  /** Report intervals that fit into a stretch of time. */
  function Intervals(gap: nat, cfg: Config): nat {
    gap / (cfg.reportInterval + 1)
  }

  /** One update, seen from the aggregation: when it reports, and what the entry remembers. */
  lemma UpdateReport(e: Entry, lifetime: U32, dir: Dir, flags: TcpFlags, cfg: Config, now: U64)
    requires now + cfg.reportInterval < U32_SIZE
    ensures var e' := UpdateTimeout(e, lifetime, dir, flags, cfg, now);
            var due := ReportDue(e, dir, flags, cfg, now);
            var unseen, unseen' := Unseen(FlagsSeen(e, dir)), Unseen(FlagsSeen(e', dir));
            && LastReport(e', dir) == (if due then now else LastReport(e, dir))
            && unseen' <= unseen && (!due ==> unseen' == unseen)
            && (due && unseen' == unseen && LastReport(e, dir) <= now ==> LastReport(e, dir) + cfg.reportInterval < now)
  {
    hide Unseen, TcpFlags.And, TcpFlags.Or;
    UnseenShrinks(FlagsSeen(e, dir), flags.And(cfg.reportMask));
  }

  /** After a report at time L, every further report either shows a new flag or comes more than an interval
      later. */
  lemma {:induction false} ReportsAfter(e: Entry, dir: Dir, us: seq<Update>, to: nat, cfg: Config)
    requires LastReport(e, dir) <= to && Ordered(us, LastReport(e, dir), to, cfg)
    ensures Reports(e, dir, us, cfg) <=
            Unseen(FlagsSeen(e, dir)) + Intervals(to - LastReport(e, dir), cfg)
    decreases |us|
  {
    hide UpdateTimeout, Unseen, FlagsSeen, LastReport, ReportDue, Ordered, Intervals;
    OrderedEnds(us, LastReport(e, dir), to, cfg);
    if us != [] {
      var u := us[0];
      var e' := UpdateTimeout(e, u.lifetime, dir, u.flags, cfg, u.now);
      UpdateReport(e, u.lifetime, dir, u.flags, cfg, u.now);
      OrderedTail(us, LastReport(e, dir), LastReport(e', dir), to, cfg);
      ReportsAfter(e', dir, us[1..], to, cfg);
      Budget(LastReport(e, dir), u.now, to, cfg, ReportDue(e, dir, u.flags, cfg, u.now),
             Unseen(FlagsSeen(e, dir)), Unseen(FlagsSeen(e', dir)));
    }
  }

  /** A report is paid for by a new flag or by an elapsed interval. */
  lemma Budget(last: U32, now: nat, to: nat, cfg: Config, due: bool, unseen: nat, unseen': nat)
    requires last <= now <= to < U32_SIZE && unseen' <= unseen && (!due ==> unseen' == unseen)
    requires due && unseen' == unseen ==> last + cfg.reportInterval < now
    ensures (if due then 1 else 0) + unseen' + Intervals(to - (if due then now else last), cfg) <=
            unseen + Intervals(to - last, cfg)
  {
    var n := cfg.reportInterval + 1;
    if due {
      if unseen' == unseen { LongerGap(last, now, to, n); } else { GapMonotone(to - now, to - last, n); }
    }
  }

  /** Trace aggregation: within any window, one direction of a connection is reported at most nine times plus
      once per elapsed report interval. */
  lemma {:induction false} ReportBound(e: Entry, dir: Dir, us: seq<Update>, from: nat, to: nat, cfg: Config)
    requires Ordered(us, from, to, cfg)
    ensures Reports(e, dir, us, cfg) <= 9 + Intervals(to - from, cfg)
    decreases |us|
  {
    hide UpdateTimeout, FlagsSeen, LastReport, Ordered, ReportDue, Intervals;
    OrderedEnds(us, from, to, cfg);
    if us != [] {
      var u := us[0];
      var e' := UpdateTimeout(e, u.lifetime, dir, u.flags, cfg, u.now);
      UpdateReport(e, u.lifetime, dir, u.flags, cfg, u.now);
      if ReportDue(e, dir, u.flags, cfg, u.now) {
        OrderedTail(us, from, u.now, to, cfg);
        ReportsAfter(e', dir, us[1..], to, cfg);
        Budget(from, u.now, to, cfg, true, 1, 0);
      } else {
        OrderedTail(us, from, from, to, cfg);
        ReportBound(e', dir, us[1..], from, to, cfg);
      }
    }
  }
}
