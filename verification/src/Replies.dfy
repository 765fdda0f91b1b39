/** Recognition of replies: the key algebra of conntrack tuples, and completeness of the reply lookup. */
module Replies {
  import opened Net
  import opened Conntrack
  import opened ConntrackLaws

  function Opposite(dir: Dir): Dir
    requires !dir.Service?
  {
    if dir.Egress? then Ingress else Egress
  }

  /** `q` answers `p`: endpoints exchanged, or an echo reply with the identifier of the request. */
  ghost predicate Answers(q: Pkt, p: Pkt, cfg: Config) {
    && q.saddr == p.daddr && q.daddr == p.saddr && q.proto == p.proto
    && (if PortProto(p.proto, cfg.sctp) then
          p.ports.Ok? && q.ports == Ok((p.ports.value.1, p.ports.value.0))
        else if p.proto == IPPROTO_ICMP then
          && !p.fragment && !q.fragment && p.icmp.Some? && q.icmp.Some? && p.icmp.value.1 == q.icmp.value.1
          && ((p.icmp.value.0 == ICMP_ECHO && q.icmp.value.0 == ICMP_ECHOREPLY)
              || (p.icmp.value.0 == ICMP_ECHOREPLY && q.icmp.value.0 == ICMP_ECHO))
        else cfg.extendedProtocols)
  }

  /** The key a packet is looked up with as a reply, and the key its own connection would have. */
  function ReplyKey(p: Pkt, dir: Dir, cfg: Config): Result<Tuple> {
    Extract(p, TupleType(dir, Bidir), cfg)
  }

  lemma AnswerKey(p: Pkt, q: Pkt, dir: Dir, cfg: Config)
    requires !dir.Service? && Answers(q, p, cfg)
    ensures var t, u := ReplyKey(p, dir, cfg), ReplyKey(q, Opposite(dir), cfg);
            t.Ok? && u == Ok(t.value.Reverse()) && !t.value.flags.related
  {
  }

  /** A bare SYN on a closing connection is not a reply. */
  predicate Restarts(q: Pkt, e: Entry) {
    PacketFlags(q).Ok? && PacketFlags(q).value.1.Create? && Closing(e)
  }

  /** Reply completeness. A packet is found to be new and its connection is created; then anything happens to
      the table that does not evict the entry. Every packet that answers it is then a reply, except for a
      bare SYN on a closing entry. */
  lemma ReplyComplete(m: Table, p: Pkt, q: Pkt, dir: Dir, now: U64, now': U64, ops: seq<Op>, withRelated: bool,
                      state: Option<Info>, cfg: Config)
    requires !dir.Service? && Answers(q, p, cfg) && PacketFlags(q).Ok?
    requires LookupPacket(m, p, dir, Bidir, now, cfg).r == Ok(New)
    requires var f := LookupPacket(m, p, dir, Bidir, now, cfg);
             forall i :: 0 <= i < |ops| ==> !(ops[i].Evict? && ops[i].key == f.tuple)
    ensures var f := LookupPacket(m, p, dir, Bidir, now, cfg);
            var made := CreateEntry(f.m, withRelated, f.tuple, dir, state, p.len, now, true, true, cfg);
            var m' := RunFrom(made.0, ops, cfg);
            made.1 && f.tuple in m' &&
            (LookupPacket(m', q, Opposite(dir), Bidir, now', cfg).r == Ok(Reply) <==> !Restarts(q, m'[f.tuple]))
  {
    hide Lookup, Touch, FreshEntry, Answers;
    var f := LookupPacket(m, p, dir, Bidir, now, cfg);
    AnswerKey(p, q, dir, cfg);
    var made := CreateEntry(f.m, withRelated, f.tuple, dir, state, p.len, now, true, true, cfg).0;
    EntryPersists(made, ops, f.tuple, cfg);
    ReplyIff(RunFrom(made, ops, cfg), q, Opposite(dir), now', cfg);
  }

  /** And the reply finds the state that was stored, as long as nothing stored another one. */
  lemma ReplyState(m: Table, p: Pkt, q: Pkt, dir: Dir, now: U64, now': U64, ops: seq<Op>, withRelated: bool,
                   state: Info, cfg: Config)
    requires !dir.Service? && Answers(q, p, cfg) && PacketFlags(q).Ok?
    requires LookupPacket(m, p, dir, Bidir, now, cfg).r == Ok(New)
    requires var f := LookupPacket(m, p, dir, Bidir, now, cfg);
             forall i :: 0 <= i < |ops| ==> KeepsInfo(ops[i], f.tuple, Stored(state, dir))
    ensures var f := LookupPacket(m, p, dir, Bidir, now, cfg);
            var made := CreateEntry(f.m, withRelated, f.tuple, dir, Some(state), p.len, now, true, true, cfg);
            var m' := RunFrom(made.0, ops, cfg);
            && f.tuple in m'
            && (!Restarts(q, m'[f.tuple]) ==>
                  var g := LookupPacket(m', q, Opposite(dir), Bidir, now', cfg);
                  g.r == Ok(Reply) && g.info == Some(Stored(state, dir)))
  {
    hide Lookup, Touch, FreshEntry, Answers, Stored;
    var f := LookupPacket(m, p, dir, Bidir, now, cfg);
    AnswerKey(p, q, dir, cfg);
    var made := CreateEntry(f.m, withRelated, f.tuple, dir, Some(state), p.len, now, true, true, cfg).0;
    FreshInfo(f.tuple.nexthdr == IPPROTO_TCP, dir, state, now, cfg);
    InfoPersists(made, ops, f.tuple, Stored(state, dir), cfg);
    var m' := RunFrom(made, ops, cfg);
    ReplyIff(m', q, Opposite(dir), now', cfg);
    ReplyInfo(m', q, Opposite(dir), now', cfg);
  }

  lemma ReplyInfo(m: Table, q: Pkt, dir: Dir, now: U64, cfg: Config)
    requires !dir.Service? && ReplyKey(q, dir, cfg).Ok? && ReplyKey(q, dir, cfg).value in m
    ensures var g := LookupPacket(m, q, dir, Bidir, now, cfg);
            g.r == Ok(Reply) ==> g.info == Some(m[ReplyKey(q, dir, cfg).value].info)
  {
    hide Touch;
  }

  /** For a packet whose reply key is in the table: it is a reply iff it does not restart the connection. */
  lemma ReplyIff(m: Table, q: Pkt, dir: Dir, now: U64, cfg: Config)
    requires !dir.Service? && PacketFlags(q).Ok? && ReplyKey(q, dir, cfg).Ok?
    requires ReplyKey(q, dir, cfg).value in m && !ReplyKey(q, dir, cfg).value.flags.related
    ensures LookupPacket(m, q, dir, Bidir, now, cfg).r == Ok(Reply) <==> !Restarts(q, m[ReplyKey(q, dir, cfg).value])
  {
    hide Touch;
    var t := ReplyKey(q, dir, cfg).value;
    var (flags, action) := PacketFlags(q).value;
    var query := Query(dir, q.proto == IPPROTO_TCP, flags, action, AnyType, 0, now, q.len);
    var first := Lookup(m, t, query, cfg);
    var second := Lookup(first.m, t.Reverse(), query, cfg);
    assert second.status == New || second.status == Established;
  }

  /** Errors are recognised too: while the related entry exists, every ICMP error from the peer is related. */
  lemma ErrorComplete(m: Table, p: Pkt, x: Pkt, dir: Dir, now: U64, now': U64, ops: seq<Op>, state: Option<Info>,
                      cfg: Config)
    requires !dir.Service? && LookupPacket(m, p, dir, Bidir, now, cfg).r == Ok(New)
    requires x.saddr == p.daddr && x.daddr == p.saddr && x.proto == IPPROTO_ICMP && !x.fragment
    requires x.icmp.Some? && x.icmp.value.0 in {3, 11, 12}
    requires var f := LookupPacket(m, p, dir, Bidir, now, cfg);
             forall i :: 0 <= i < |ops| ==> !(ops[i].Evict? && ops[i].key == RelatedKey(f.tuple))
    ensures var f := LookupPacket(m, p, dir, Bidir, now, cfg);
            var made := CreateEntry(f.m, true, f.tuple, dir, state, p.len, now, true, true, cfg);
            LookupPacket(RunFrom(made.0, ops, cfg), x, Opposite(dir), Bidir, now', cfg).r == Ok(Related)
  {
    hide Touch, FreshEntry, LookupPacket;
    var f := LookupPacket(m, p, dir, Bidir, now, cfg);
    NewTuple(m, p, dir, now, cfg);
    var made := CreateEntry(f.m, true, f.tuple, dir, state, p.len, now, true, true, cfg).0;
    EntryPersists(made, ops, RelatedKey(f.tuple), cfg);
    RelatedHit(RunFrom(made, ops, cfg), x, Opposite(dir), now', cfg);
  }

  /** A new packet leaves the lookup with the key of its own connection. */
  lemma NewTuple(m: Table, p: Pkt, dir: Dir, now: U64, cfg: Config)
    requires !dir.Service? && LookupPacket(m, p, dir, Bidir, now, cfg).r == Ok(New)
    ensures ReplyKey(p, dir, cfg).Ok?
    ensures LookupPacket(m, p, dir, Bidir, now, cfg).tuple == ReplyKey(p, dir, cfg).value.Reverse()
  {
    hide Lookup;
  }

  lemma RelatedHit(m: Table, x: Pkt, dir: Dir, now: U64, cfg: Config)
    requires !dir.Service? && ReplyKey(x, dir, cfg).Ok? && x.proto == IPPROTO_ICMP
    requires ReplyKey(x, dir, cfg).value in m && ReplyKey(x, dir, cfg).value.flags.related
    ensures LookupPacket(m, x, dir, Bidir, now, cfg).r == Ok(Related)
  {
    hide Touch;
  }

  /** What a lookup in both directions finds, for a packet that is not an ICMP error: the connection it answers, else
      the connection it belongs to, else nothing; a bare SYN finds no closing connection. */
  lemma StatusIff(m: Table, p: Pkt, dir: Dir, now: U64, cfg: Config)
    requires !dir.Service? && PacketFlags(p).Ok? && ReplyKey(p, dir, cfg).Ok?
    requires !ReplyKey(p, dir, cfg).value.flags.related
    ensures var r := LookupPacket(m, p, dir, Bidir, now, cfg).r;
            var answered := ReplyKey(p, dir, cfg).value;
            var own := answered.Reverse();
            r == Ok(if answered in m && !Restarts(p, m[answered]) then Reply
                    else if own in m && !Restarts(p, m[own]) then Established
                    else New)
  {
    hide Touch;
  }

  /** A lookup in one direction finds exactly the connection the packet belongs to. */
  lemma ForwardIff(m: Table, p: Pkt, dir: Dir, now: U64, cfg: Config)
    requires !dir.Service? && PacketFlags(p).Ok? && ReplyKey(p, dir, cfg).Ok?
    requires !ReplyKey(p, dir, cfg).value.flags.related
    ensures var f := LookupPacket(m, p, dir, Forward, now, cfg); var own := ReplyKey(p, dir, cfg).value.Reverse();
            && f.tuple == own
            && f.r == Ok(if own in m && !Restarts(p, m[own]) then Established else New)
  {
    hide Touch, Extract;
    ForwardKeyIs(p, dir, cfg);
  }

  lemma ForwardKeyIs(p: Pkt, dir: Dir, cfg: Config)
    requires !dir.Service? && ReplyKey(p, dir, cfg).Ok?
    ensures var t := Extract(p, TupleType(dir, Forward), cfg);
            t.Ok? && t.value.SwapAddrs().SwapPorts() == ReplyKey(p, dir, cfg).value.Reverse()
  {
  }
}
