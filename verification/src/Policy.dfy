/** The policy verdict lookup: two or three longest-prefix lookups standing in for a scan of the whole policy. */
module Policy {
  import opened Net
  import Arith

  const LPM_BITS: nat := 24         // protocol and destination port
  const LPM_PROTO_BITS: nat := 8
  const MAX_PRECEDENCE: U32 := 0xFFFF_FFFF

  const AGGREGATE_CLUSTER_ID: U32 := 11
  const AGGREGATE_CLUSTER_MESH_ID: U32 := 12
  const AGGREGATE_WORLD_ID: U32 := 13
  const AGGREGATE_REMOTE_NODE_ID: U32 := 14
  const ICMP_FRAG_NEEDED: U8 := 4

  function Pow2(n: nat): (r: nat)
    ensures r > 0
  {
    if n == 0 then 1 else 2 * Pow2(n - 1)
  }

  /** A policy map key: identity and direction exactly, protocol and port up to a prefix of `plen` bits. */
  datatype Key = Key(ident: U32, egress: bool, plen: nat, prefix: nat)

  datatype Entry = Entry(deny: bool, proxyPort: Port, precedence: U32, lpmLen: nat, cookie: U32)

  type PolicyMap = map<Key, Entry>

  /** Protocol and port as one 24-bit number, and its leading bits. */
  function L4(proto: U8, dport: Port): nat {
    var p: int := proto;
    p * 0x1_0000 + dport
  }

  function Prefix(x: nat, plen: nat): nat
    requires plen <= LPM_BITS
    decreases LPM_BITS - plen
  {
    if plen == LPM_BITS then x else Prefix(x, plen + 1) / 2
  }

  ghost predicate Matches(k: Key, x: nat) {
    k.plen <= LPM_BITS && k.prefix == Prefix(x, k.plen)
  }

  /** Longest-prefix match, the meaning of a lookup in an LPM trie, trying prefixes of at most `n` bits. */
  function Longest(m: PolicyMap, ident: U32, egress: bool, x: nat, n: nat): (r: Option<Key>)
    requires n <= LPM_BITS
    ensures r.Some? ==> r.value in m && r.value.ident == ident && r.value.egress == egress && Matches(r.value, x)
                        && r.value.plen <= n
    ensures forall k :: k in m && k.ident == ident && k.egress == egress && Matches(k, x) && k.plen <= n ==>
                          r.Some? && k.plen <= r.value.plen
  {
    var k := Key(ident, egress, n, Prefix(x, n));
    if k in m then Some(k)
    else if n == 0 then None
    else Longest(m, ident, egress, x, n - 1)
  }

  /** aggregate_for_identity; `clusterBits` is the width of the cluster part of an identity. */
  function Aggregate(id: U32, clusterId: U32, clusterBits: nat): U32
    requires 8 <= clusterBits <= 16
  {
    if id in {0, AGGREGATE_CLUSTER_ID, AGGREGATE_CLUSTER_MESH_ID, AGGREGATE_REMOTE_NODE_ID, AGGREGATE_WORLD_ID} then id
    else if id < 100 then 0
    else if id / 0x100_0000 == 2 then AGGREGATE_REMOTE_NODE_ID
    else if id / 0x100_0000 == 1 then AGGREGATE_WORLD_ID
    else if id / Pow2(LPM_BITS - clusterBits) == clusterId then AGGREGATE_CLUSTER_ID
    else AGGREGATE_CLUSTER_MESH_ID
  }

  datatype Config = Config(
    allowFragNeeded: bool, icmpRule: bool, clusterId: U32, clusterBits: nat)

  datatype MatchType = NoMatch | L3L4 | L3Proto | L3Only | L4Only | ProtoOnly | All

  datatype Decision = Decision(r: Result<()>, proxyPort: Port, cookie: U32, matched: MatchType)

  /** The packet as policy sees it; `icmp` is type and code if readable. */
  datatype Query = Query(remoteId: U32, egress: bool, proto: U8, dport: Port, untracked: bool, icmp: Option<(U8, U8)>)

  /** __policy_check */
  function Check(e: Entry, matched: MatchType): Decision {
    if e.deny then Decision(Err(PolicyDeny), 0, e.cookie, matched)
    else Decision(Ok(()), e.proxyPort, e.cookie, matched)
  }

  function SpecificType(plen: nat): MatchType {
    if plen > LPM_PROTO_BITS then L3L4 else if plen > 0 then L3Proto else L3Only
  }

  function AggregateType(plen: nat): MatchType {
    if plen == 0 then All else if plen <= LPM_PROTO_BITS then ProtoOnly else L4Only
  }

  function AggregateOf(q: Query, cfg: Config): U32
    requires 8 <= cfg.clusterBits <= 16
  {
    Aggregate(q.remoteId, cfg.clusterId, cfg.clusterBits)
  }

  /** __policy_can_access (IPv4). With the options that look at ICMP, an unreadable ICMP header is refused; a path MTU
      message is let through if the option for that is on; with ICMP rules, the ICMP type stands for the port. All
      other packets are decided by the map, and for a map the agent writes as a full scan of it would. */
  method CanAccess(m: PolicyMap, q: Query, cfg: Config) returns (d: Decision)
    requires 8 <= cfg.clusterBits <= 16
    ensures q.proto == IPPROTO_ICMP && q.icmp.None? && (cfg.allowFragNeeded || cfg.icmpRule) ==> d.r == Err(Invalid)
    ensures q.proto == IPPROTO_ICMP && q.icmp == Some((3, 4)) && cfg.allowFragNeeded ==>
              d == Decision(Ok(()), 0, 0, NoMatch)
    ensures var byType := cfg.icmpRule && q.proto == IPPROTO_ICMP && q.icmp.Some?;
            var x := L4(q.proto, if byType then q.icmp.value.0 else q.dport);
            q.proto != IPPROTO_ICMP || (!cfg.allowFragNeeded && !cfg.icmpRule)
            || (q.icmp.Some? && !(cfg.allowFragNeeded && q.icmp == Some((3, 4)))) ==>
              && d == Choose(m, q, x, AggregateOf(q, cfg))
              && (Consistent(m) ==> ScanDecides(m, q, x, AggregateOf(q, cfg), d))
  {
    hide Consistent, ScanDecides, L4, Aggregate, Choose;
    var x := L4(q.proto, q.dport);
    if (cfg.allowFragNeeded || cfg.icmpRule) && q.proto == IPPROTO_ICMP {
      if q.icmp.None? { return Decision(Err(Invalid), 0, 0, NoMatch); }
      if cfg.allowFragNeeded && q.icmp.value == (ICMP_DEST_UNREACH, ICMP_FRAG_NEEDED) {
        return Decision(Ok(()), 0, 0, NoMatch);
      }
      if cfg.icmpRule { x := L4(q.proto, q.icmp.value.0); }
    }
    d := LookupEntry(m, q, x, Aggregate(q.remoteId, cfg.clusterId, cfg.clusterBits));
  }

  /** The lookups of __policy_can_access, for the L4 key `x` and the aggregate `aggLabel` of the identity. */
  method LookupEntry(m: PolicyMap, q: Query, x: nat, aggLabel: U32) returns (d: Decision)
    ensures d == Choose(m, q, x, aggLabel)
    ensures Consistent(m) ==> ScanDecides(m, q, x, aggLabel, d)
  {
    hide Consistent, ScanDecides, Matches, Beats, Check, Longest, SpecificType, AggregateType;
    if Consistent(m) { ChooseRefinesScan(m, q, x, aggLabel); }
    var ident := q.remoteId;
    var policy := Longest(m, ident, q.egress, x, LPM_BITS);
    if policy.Some? && m[policy.value].precedence == MAX_PRECEDENCE {
      return Check(m[policy.value], SpecificType(m[policy.value].lpmLen));
    }
    ident := aggLabel;
    var agg := None;
    if ident != q.remoteId { agg := Longest(m, ident, q.egress, x, LPM_BITS); }
    if agg.None? && policy.None? && ident != 0 {
      ident := 0;
      agg := Longest(m, ident, q.egress, x, LPM_BITS);
    }
    if agg.Some? && (policy.None? || Beats(m[agg.value], m[policy.value])) {
      return Check(m[agg.value], AggregateType(m[agg.value].lpmLen));
    }
    if policy.Some? { return Check(m[policy.value], SpecificType(m[policy.value].lpmLen)); }
    d := Decision(Err(if q.untracked then FragNoSupport else PolicyDrop), 0, 0, NoMatch);
  }

  /** The aggregate entry is preferred over the specific one. */
  predicate Beats(agg: Entry, specific: Entry) {
    agg.precedence > specific.precedence || (agg.precedence == specific.precedence && agg.lpmLen > specific.lpmLen)
  }

  function Choose(m: PolicyMap, q: Query, x: nat, aggLabel: U32): Decision {
    var policy := Longest(m, q.remoteId, q.egress, x, LPM_BITS);
    if policy.Some? && m[policy.value].precedence == MAX_PRECEDENCE then
      Check(m[policy.value], SpecificType(m[policy.value].lpmLen))
    else
      var agg1 := if aggLabel != q.remoteId then Longest(m, aggLabel, q.egress, x, LPM_BITS) else None;
      var agg := if agg1.None? && policy.None? && aggLabel != 0 then Longest(m, 0, q.egress, x, LPM_BITS) else agg1;
      if agg.Some? && (policy.None? || Beats(m[agg.value], m[policy.value])) then
        Check(m[agg.value], AggregateType(m[agg.value].lpmLen))
      else if policy.Some? then Check(m[policy.value], SpecificType(m[policy.value].lpmLen))
      else Decision(Err(if q.untracked then FragNoSupport else PolicyDrop), 0, 0, NoMatch)
  }

  // ---------------------------------------------------------------- the full scan

  /** What the agent that writes the map guarantees: entries know their prefix length; within one identity and
      direction, of two entries matching the same packet the longer one does not have lower precedence; the
      highest precedence is reserved for denies. */
  ghost predicate Consistent(m: PolicyMap) {
    && (forall k :: k in m ==> m[k].lpmLen == k.plen && (m[k].precedence == MAX_PRECEDENCE ==> m[k].deny))
    && forall k, k', x: nat :: k in m && k' in m && k.ident == k'.ident && k.egress == k'.egress
                               && Matches(k, x) && Matches(k', x) && k.plen <= k'.plen ==>
                               m[k].precedence <= m[k'].precedence
  }

  /** An entry that applies to the packet, under one of two identities. */
  ghost predicate Applies(m: PolicyMap, k: Key, q: Query, x: nat, a: U32, b: U32) {
    k in m && (k.ident == a || k.ident == b) && k.egress == q.egress && Matches(k, x)
  }

  /** Higher precedence, then longer prefix, then the packet's own identity. */
  ghost predicate Outranks(m: PolicyMap, k: Key, l: Key, q: Query)
    requires k in m && l in m
  {
    || m[k].precedence > m[l].precedence
    || (m[k].precedence == m[l].precedence
        && (k.plen > l.plen || (k.plen == l.plen && k.ident == q.remoteId && l.ident != q.remoteId)))
  }

  /** The winner of a scan of all entries for these two identities. */
  ghost predicate Best(m: PolicyMap, k: Key, q: Query, x: nat, a: U32, b: U32) {
    Applies(m, k, q, x, a, b) && forall l :: Applies(m, l, q, x, a, b) && l != k ==> Outranks(m, k, l, q)
  }

  /** The decision is the one entry `e` asks for: a deny drops, anything else accepts and names its proxy port. */
  ghost predicate VerdictOf(d: Decision, e: Entry) {
    && d.r == (if e.deny then Err(PolicyDeny) else Ok(()))
    && d.proxyPort == (if e.deny then 0 else e.proxyPort)
  }

  /** The decision reports entry `k`: its cookie, and whether it named the packet's identity, protocol and port. */
  ghost predicate Reports(d: Decision, k: Key, e: Entry, q: Query) {
    && d.cookie == e.cookie
    && (d.matched in {L3L4, L3Proto, L3Only} <==> k.ident == q.remoteId)
    && (d.matched in {L3Only, All} <==> k.plen == 0)
    && (d.matched in {L3Proto, ProtoOnly} <==> 0 < k.plen <= 8)
    && (d.matched in {L3L4, L4Only} <==> k.plen > 8)
  }

  /** The decision is that of the winner of a scan over the entries of the packet's identity and its aggregate;
      only if there are none, of the entries of identity 0; and a drop if there are none of those either. Of two
      denies of the highest precedence, either may be reported. */
  ghost predicate ScanDecides(m: PolicyMap, q: Query, x: nat, agg: U32, d: Decision) {
    if exists k :: Applies(m, k, q, x, q.remoteId, agg) then
      exists k :: Best(m, k, q, x, q.remoteId, agg) && VerdictOf(d, m[k])
                  && (Reports(d, k, m[k], q) || m[k].precedence == MAX_PRECEDENCE)
    else if exists k :: Applies(m, k, q, x, 0, 0) then
      exists k :: Best(m, k, q, x, 0, 0) && VerdictOf(d, m[k]) && Reports(d, k, m[k], q)
    else d == Decision(Err(if q.untracked then FragNoSupport else PolicyDrop), 0, 0, NoMatch)
  }

  /** The longest match of an identity outranks every other entry of that identity. */
  lemma LongestWins(m: PolicyMap, k: Key, l: Key, q: Query, x: nat)
    requires Consistent(m) && Longest(m, k.ident, q.egress, x, LPM_BITS) == Some(k)
    requires l in m && l.ident == k.ident && l.egress == q.egress && Matches(l, x)
    ensures m[l].precedence <= m[k].precedence && l.plen <= k.plen
    ensures l != k ==> l.plen < k.plen && Outranks(m, k, l, q)
  {
  }

  lemma LongestIsBest(m: PolicyMap, k: Key, q: Query, x: nat)
    requires Consistent(m) && Longest(m, k.ident, q.egress, x, LPM_BITS) == Some(k)
    ensures Best(m, k, q, x, k.ident, k.ident)
  {
    hide Consistent, Longest;
    forall l | Applies(m, l, q, x, k.ident, k.ident) && l != k
      ensures Outranks(m, k, l, q)
    {
      LongestWins(m, k, l, q, x);
    }
  }

  /** Of the longest matches of two identities, the better one wins over the entries of both. */
  lemma BetterIsBest(m: PolicyMap, k: Key, o: Option<Key>, other: U32, q: Query, x: nat)
    requires Consistent(m) && Longest(m, k.ident, q.egress, x, LPM_BITS) == Some(k)
    requires Longest(m, other, q.egress, x, LPM_BITS) == o && other != k.ident
    requires o.Some? ==> o.value in m && Outranks(m, k, o.value, q)
    ensures Best(m, k, q, x, k.ident, other)
  {
    hide Consistent;
    forall l | Applies(m, l, q, x, k.ident, other) && l != k
      ensures Outranks(m, k, l, q)
    {
      if l.ident == k.ident {
        LongestWins(m, k, l, q, x);
      } else {
        LongestWins(m, o.value, l, q, x);
      }
    }
  }

  lemma BestSwap(m: PolicyMap, k: Key, q: Query, x: nat, a: U32, b: U32)
    requires Best(m, k, q, x, a, b)
    ensures Best(m, k, q, x, b, a)
  {
    forall l | Applies(m, l, q, x, b, a) && l != k
      ensures Outranks(m, k, l, q)
    {
      assert Applies(m, l, q, x, a, b);
    }
  }

  lemma LongestBits(m: PolicyMap, ident: U32, egress: bool, x: nat)
    requires Longest(m, ident, egress, x, LPM_BITS).Some?
    ensures var k := Longest(m, ident, egress, x, LPM_BITS).value;
            k in m && k.ident == ident && k.egress == egress && Matches(k, x)
  {
  }

  lemma NothingApplies(m: PolicyMap, q: Query, x: nat, a: U32, b: U32)
    requires Longest(m, a, q.egress, x, LPM_BITS).None? && Longest(m, b, q.egress, x, LPM_BITS).None?
    ensures !exists k :: Applies(m, k, q, x, a, b)
  {
  }

  /** The lookups refine the scan, and the early exit at the highest precedence never changes the verdict. */
  lemma ChooseRefinesScan(m: PolicyMap, q: Query, x: nat, agg: U32)
    requires Consistent(m)
    ensures ScanDecides(m, q, x, agg, Choose(m, q, x, agg))
  {
    hide Longest, Consistent, Outranks;
    var p, a := Longest(m, q.remoteId, q.egress, x, LPM_BITS), Longest(m, agg, q.egress, x, LPM_BITS);
    var d := Choose(m, q, x, agg);
    if p.Some? { LongestBits(m, q.remoteId, q.egress, x); }
    if a.Some? { LongestBits(m, agg, q.egress, x); }
    if p.None? && a.None? {
      NothingApplies(m, q, x, q.remoteId, agg);
      ZeroLabel(m, q, x, agg);
    } else {
      var k := Winner(m, q, x, agg);
      WinnerIsBest(m, q, x, agg);
      assert Applies(m, k, q, x, q.remoteId, agg);
      ChosenVerdict(m, q, x, agg);
    }
  }

  ghost function Winner(m: PolicyMap, q: Query, x: nat, agg: U32): Key
    requires Longest(m, q.remoteId, q.egress, x, LPM_BITS).Some? || Longest(m, agg, q.egress, x, LPM_BITS).Some?
  {
    var p, a := Longest(m, q.remoteId, q.egress, x, LPM_BITS), Longest(m, agg, q.egress, x, LPM_BITS);
    if p.None? then a.value
    else if a.None? || agg == q.remoteId || !Beats(m[a.value], m[p.value]) then p.value
    else a.value
  }

  lemma WinnerIsBest(m: PolicyMap, q: Query, x: nat, agg: U32)
    requires Consistent(m)
    requires Longest(m, q.remoteId, q.egress, x, LPM_BITS).Some? || Longest(m, agg, q.egress, x, LPM_BITS).Some?
    ensures Best(m, Winner(m, q, x, agg), q, x, q.remoteId, agg)
  {
    hide Longest, Best, Matches;
    var p, a := Longest(m, q.remoteId, q.egress, x, LPM_BITS), Longest(m, agg, q.egress, x, LPM_BITS);
    var k := Winner(m, q, x, agg);
    if p.Some? { LongestBits(m, q.remoteId, q.egress, x); }
    if a.Some? { LongestBits(m, agg, q.egress, x); }
    if agg == q.remoteId {
      LongestIsBest(m, k, q, x);
    } else if p.Some? && k == p.value {
      BetterIsBest(m, k, a, agg, q, x);
    } else {
      BetterIsBest(m, k, p, q.remoteId, q, x);
      BestSwap(m, k, q, x, agg, q.remoteId);
    }
  }

  lemma EntryLength(m: PolicyMap, k: Key)
    requires Consistent(m) && k in m
    ensures m[k].lpmLen == k.plen && (m[k].precedence == MAX_PRECEDENCE ==> m[k].deny)
  {
  }

  lemma CheckReports(m: PolicyMap, k: Key, q: Query)
    requires Consistent(m) && k in m
    ensures k.ident == q.remoteId ==>
              var d := Check(m[k], SpecificType(m[k].lpmLen)); VerdictOf(d, m[k]) && Reports(d, k, m[k], q)
    ensures k.ident != q.remoteId ==>
              var d := Check(m[k], AggregateType(m[k].lpmLen)); VerdictOf(d, m[k]) && Reports(d, k, m[k], q)
  {
    hide Consistent;
    EntryLength(m, k);
  }

  lemma DeniesAgree(d: Decision, e: Entry, e': Entry)
    requires VerdictOf(d, e) && e.deny && e'.deny
    ensures VerdictOf(d, e')
  {
  }

  lemma ChosenVerdict(m: PolicyMap, q: Query, x: nat, agg: U32)
    requires Consistent(m)
    requires Longest(m, q.remoteId, q.egress, x, LPM_BITS).Some? || Longest(m, agg, q.egress, x, LPM_BITS).Some?
    ensures var k, d := Winner(m, q, x, agg), Choose(m, q, x, agg);
            k in m && VerdictOf(d, m[k]) && (Reports(d, k, m[k], q) || m[k].precedence == MAX_PRECEDENCE)
  {
    hide Longest, Matches, Consistent, Check, SpecificType, AggregateType, VerdictOf, Reports;
    var p, a := Longest(m, q.remoteId, q.egress, x, LPM_BITS), Longest(m, agg, q.egress, x, LPM_BITS);
    if p.Some? {
      LongestBits(m, q.remoteId, q.egress, x);
      CheckReports(m, p.value, q);
      EntryLength(m, p.value);
    }
    if a.Some? {
      LongestBits(m, agg, q.egress, x);
      CheckReports(m, a.value, q);
      EntryLength(m, a.value);
    }
    if p.Some? && a.Some? && m[p.value].precedence == MAX_PRECEDENCE && m[a.value].precedence == MAX_PRECEDENCE {
      DeniesAgree(Choose(m, q, x, agg), m[p.value], m[a.value]);
    }
  }

  lemma ZeroLabel(m: PolicyMap, q: Query, x: nat, agg: U32)
    requires Consistent(m)
    requires Longest(m, q.remoteId, q.egress, x, LPM_BITS).None? && Longest(m, agg, q.egress, x, LPM_BITS).None?
    ensures var d := Choose(m, q, x, agg);
            if exists k :: Applies(m, k, q, x, 0, 0) then
              exists k :: Best(m, k, q, x, 0, 0) && VerdictOf(d, m[k]) && Reports(d, k, m[k], q)
            else d == Decision(Err(if q.untracked then FragNoSupport else PolicyDrop), 0, 0, NoMatch)
  {
    hide Longest, Matches, Consistent, Outranks;
    var z := Longest(m, 0, q.egress, x, LPM_BITS);
    if z.None? {
      NothingApplies(m, q, x, 0, 0);
    } else {
      LongestBits(m, 0, q.egress, x);
      LongestIsBest(m, z.value, q, x);
      EntryLength(m, z.value);
      var d := Choose(m, q, x, agg);
      assert Best(m, z.value, q, x, 0, 0) && VerdictOf(d, m[z.value]) && Reports(d, z.value, m[z.value], q);
    }
  }

  /** Only what is accepted is sent to a proxy. */
  lemma RefusedHasNoProxy(m: PolicyMap, q: Query, x: nat, agg: U32)
    ensures Choose(m, q, x, agg).r.Err? ==> Choose(m, q, x, agg).proxyPort == 0
  {
    hide Longest;
  }

  // ---------------------------------------------------------------- what keys and labels mean

  lemma PrefixIs(x: nat, n: nat)
    requires n <= LPM_BITS
    ensures Prefix(x, n) == x / Pow2(LPM_BITS - n)
    decreases LPM_BITS - n
  {
    if n < LPM_BITS {
      PrefixIs(x, n + 1);
      HalveTwice(x, Pow2(LPM_BITS - n - 1));
    }
  }

  lemma HalveTwice(x: nat, d: nat)
    requires d > 0
    ensures x / d / 2 == x / (2 * d)
  {
    var q, r := x / d, x % d;
    assert x == d * q + r;
    assert x == (2 * d) * (q / 2) + (d * (q % 2) + r);
    QuotientUnique(x, 2 * d, q / 2, d * (q % 2) + r);
  }

  lemma QuotientUnique(x: nat, d: nat, q: nat, r: nat)
    requires d > 0 && x == d * q + r && r < d
    ensures x / d == q
  {
    var p := x / d;
    assert d * p <= x < d * p + d;
    if p < q { Arith.MulLe(d, p + 1, d, q); }
    if q < p { Arith.MulLe(d, q + 1, d, p); }
  }

  /** Which packets an entry written for protocol `proto` and the ports that agree with `dport` in their leading bits
      applies to: with no bits to all, with the 8 bits of the protocol to that protocol, with more to the protocol and
      the ports of the range. */
  lemma KeyMeaning(ident: U32, egress: bool, n: nat, proto: U8, dport: Port, proto': U8, dport': Port)
    requires n <= LPM_BITS
    ensures var k := Key(ident, egress, n, Prefix(L4(proto, dport), n));
            && (n == 0 ==> Matches(k, L4(proto', dport')))
            && (n == 8 ==> (Matches(k, L4(proto', dport')) <==> proto' == proto))
            && (8 <= n ==> (Matches(k, L4(proto', dport')) <==>
                              proto' == proto && dport' / Pow2(LPM_BITS - n) == dport / Pow2(LPM_BITS - n)))
  {
    hide Prefix, Pow2;
    PrefixIs(L4(proto, dport), n);
    PrefixIs(L4(proto', dport'), n);
    if n == 0 {
      AllPorts(proto, dport);
      AllPorts(proto', dport');
    } else if 8 <= n {
      SamePrefix(n, proto, dport, proto', dport');
      if n == 8 {
        NoPort(dport);
        NoPort(dport');
      }
    }
  }

  lemma AllPorts(proto: U8, dport: Port)
    ensures L4(proto, dport) / Pow2(24) == 0
  {
    hide Pow2;
    Powers();
  }

  lemma NoPort(dport: Port)
    ensures dport / Pow2(16) == 0
  {
    hide Pow2;
    Powers();
  }

  lemma SamePrefix(n: nat, proto: U8, dport: Port, proto': U8, dport': Port)
    requires 8 <= n <= LPM_BITS
    ensures var d := Pow2(LPM_BITS - n);
            L4(proto, dport) / d == L4(proto', dport') / d <==> proto' == proto && dport' / d == dport / d
  {
    hide Pow2;
    var d, e := Pow2(LPM_BITS - n), Pow2(n - 8);
    assert e * d == 0x1_0000 by {
      Powers();
      PowAdd(n - 8, LPM_BITS - n);
    }
    SameQuotient(proto, dport, proto', dport', d, e);
  }

  lemma SameQuotient(p: nat, port: Port, q: nat, port': Port, d: nat, e: nat)
    requires d > 0 && e * d == 0x1_0000
    ensures (p * 0x1_0000 + port) / d == (q * 0x1_0000 + port') / d <==> q == p && port' / d == port / d
  {
    PortPart(port, d, e);
    PortPart(port', d, e);
    SplitQuotient(p, port, d, e);
    SplitQuotient(q, port', d, e);
    var x, y, a, b := (p * 0x1_0000 + port) / d, (q * 0x1_0000 + port') / d, port / d, port' / d;
    hide *;
    SamePair(p, a, q, b, e, x, y);
  }

  lemma Powers()
    ensures Pow2(16) == 0x1_0000 && Pow2(24) == 0x100_0000
  {
    assert Pow2(4) == 0x10;
    assert Pow2(8) == 0x100;
    assert Pow2(12) == 0x1000;
    assert Pow2(16) == 0x1_0000;
    assert Pow2(20) == 0x10_0000;
  }

  lemma SplitQuotient(p: nat, port: nat, d: nat, e: nat)
    requires d > 0 && e * d == 0x1_0000
    ensures (p * 0x1_0000 + port) / d == p * e + port / d
  {
    assert d * (p * e + port / d) == p * (e * d) + d * (port / d);
    QuotientUnique(p * 0x1_0000 + port, d, p * e + port / d, port % d);
  }

  lemma PortPart(port: Port, d: nat, e: nat)
    requires d > 0 && e * d == 0x1_0000
    ensures port / d < e
  {
    if port / d >= e { Arith.MulLe(e, d, port / d, d); }
  }

  lemma SamePair(p: nat, a: nat, q: nat, b: nat, e: nat, x: nat, y: nat)
    requires a < e && b < e && x == p * e + a && y == q * e + b
    ensures x == y <==> p == q && a == b
  {
    if p < q { Arith.MulLe(p + 1, e, q, e); }
    if q < p { Arith.MulLe(q + 1, e, p, e); }
  }

  /** Which label stands for an endpoint: endpoints of the own cluster and of others have one label each, nodes and
      addresses outside the cluster one each, and reserved identities none. */
  lemma AggregateMeaning(cluster: nat, local: nat, clusterId: U32, clusterBits: nat, scoped: U32)
    requires 8 <= clusterBits <= 16 && cluster < Pow2(clusterBits) && local < Pow2(LPM_BITS - clusterBits)
    ensures var id := cluster * Pow2(LPM_BITS - clusterBits) + local;
            && 0 <= id < 0x100_0000
            && (id >= 100 ==> Aggregate(id, clusterId, clusterBits) ==
                                if cluster == clusterId then AGGREGATE_CLUSTER_ID else AGGREGATE_CLUSTER_MESH_ID)
            && (id < 11 ==> Aggregate(id, clusterId, clusterBits) == 0)
    ensures 0x0200_0000 <= scoped < 0x0300_0000 ==>
              Aggregate(scoped, clusterId, clusterBits) == AGGREGATE_REMOTE_NODE_ID
    ensures 0x0100_0000 <= scoped < 0x0200_0000 ==> Aggregate(scoped, clusterId, clusterBits) == AGGREGATE_WORLD_ID
  {
    hide Pow2;
    var e := Pow2(LPM_BITS - clusterBits);
    PowAdd(clusterBits, LPM_BITS - clusterBits);
    Powers();
    Arith.MulLe(cluster + 1, e, Pow2(clusterBits), e);
    QuotientUnique(cluster * e + local, e, cluster, local);
  }

  lemma DoubleProduct(x: nat, y: nat, z: nat)
    requires x * y == z
    ensures (2 * x) * y == 2 * z
  {
  }

  lemma PowAdd(a: nat, b: nat)
    ensures Pow2(a) * Pow2(b) == Pow2(a + b)
    decreases a
  {
    if a > 0 {
      PowAdd(a - 1, b);
      var x, y, z := Pow2(a - 1), Pow2(b), Pow2(a - 1 + b);
      assert Pow2(a) == 2 * x && Pow2(a + b) == 2 * z;
      hide *;
      DoubleProduct(x, y, z);
    }
  }

  /** Aggregates aggregate to themselves. */
  lemma AggregateIdempotent(id: U32, clusterId: U32, clusterBits: nat)
    requires 8 <= clusterBits <= 16
    ensures var a := Aggregate(id, clusterId, clusterBits); Aggregate(a, clusterId, clusterBits) == a
  {
  }
}
