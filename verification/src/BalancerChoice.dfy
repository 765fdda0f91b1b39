/** Which backend a service packet gets, in all cases: kept, left, taken from the client's record or newly chosen. */
module BalancerChoice {
  import opened Net
  import opened Conntrack
  import opened LoadBalancer
  import opened BalancerLaws

  /** The packet belongs to a recorded connection of its service, and does not start it over. */
  ghost predicate Continues(lb: Lb, r: Request, cfg: Config) {
    && PacketFlags(r.p).Ok? && ServiceKey(r) in lb.ct
    && lb.ct[ServiceKey(r)].info.revNatIndex == r.svc.revNatIndex
    && !Restarts(lb.ct[ServiceKey(r)], r, cfg)
  }

  /** A packet that opens a TCP connection. */
  ghost predicate OpensTcp(p: Pkt) {
    p.proto == IPPROTO_TCP && p.hasL4 && p.flags.Some? && p.flags.value.syn && !p.flags.value.ack
  }

  /** Where the service connection is recorded, and that a failed flag lookup changes nothing. */
  lemma UnreadableFails(lb: Lb, r: Request, cfg: Config)
    requires PacketFlags(r.p).Err? && !(r.forced && r.svc.l7PuntProxy)
    ensures Local(lb, r, cfg) == (lb, Err(InvalidHdr))
  {
    hide Open, Continue, CreateEntry;
  }

  /** A packet of a known connection. Its backend is kept while it is active; a terminating one is kept too, except by
      UDP and by packets that open a connection, which go to a newly chosen backend, as do all packets whose backend is
      gone; and the connection is then recorded with the new one. Without any backend to choose, only UDP stays with a
      terminating one. */
  lemma KnownConnection(lb: Lb, r: Request, cfg: Config)
    requires !r.forced && Continues(lb, r, cfg)
    ensures var id := lb.ct[ServiceKey(r)].info.backendId; var (lb', res) := Local(lb, r, cfg);
            var there := id in lb.backends;
            var udp := r.p.proto == IPPROTO_UDP;
            && (there && lb.backends[id].active ==> res == Ok(id))
            && (there && !lb.backends[id].active && !udp && !OpensTcp(r.p) ==> res == Ok(id))
            && ((!there || (!lb.backends[id].active && (udp || OpensTcp(r.p)))) ==>
                  && (r.svc.count == 0 ==> res == if there && udp then Ok(id) else Err(NoService))
                  && (r.svc.count != 0 && r.choice in lb.backends ==>
                        res == Ok(r.choice) && Names(lb', ServiceKey(r), r.choice, r.svc.revNatIndex))
                  && (r.svc.count != 0 && r.choice !in lb.backends ==> res == Err(NoService)))
            && (res.Err? ==> lb' == lb.(ct := lb'.ct) && Names(lb', ServiceKey(r), id, r.svc.revNatIndex))
  {
    hide LookupTuple, Restarts;
    ServiceLookup(lb.ct, r, cfg);
  }

  /** The client's record decides: it is there, younger than the timeout, matched with the service, and its backend
      exists. */
  ghost predicate RecordDecides(lb: Lb, r: Request) {
    && r.svc.affinity
    && var key := AffinityKey(r.tuple.saddr, r.svc.revNatIndex);
    && key in lb.affinity
    && var v := lb.affinity[key];
    && (v.lastUsed + r.svc.affinityTimeout) % U64_SIZE > r.now % U32_SIZE
    && (v.backendId, r.svc.revNatIndex) in lb.matches
    && v.backendId != 0 && v.backendId in lb.backends
  }

  /** A new connection goes to the backend of the client's record if that decides, and to the chosen one otherwise. It
      fails without backends and if it cannot be recorded. A record that is too old or not matched any more does not
      survive; one that is used is refreshed. */
  ghost predicate ServedAnew(lb: Lb, r: Request, lb': Lb, res: Result<U32>) {
    var key := AffinityKey(r.tuple.saddr, r.svc.revNatIndex);
    var id := if RecordDecides(lb, r) then lb.affinity[key].backendId else r.choice;
    && res == (if r.svc.count == 0 || id !in lb.backends then Err(NoService)
               else if !r.ctOk then Err(CtCreateFailed) else Ok(id))
    && (r.svc.count == 0 || !r.svc.affinity ==> lb'.affinity == lb.affinity)
    && (r.svc.count != 0 && r.svc.affinity ==>
          lb'.affinity ==
          if res.Ok? && r.affinityOk then lb.affinity[key := AffinityVal(r.now % U32_SIZE, id)]
          else if key !in lb.affinity then lb.affinity
          else
            var v := lb.affinity[key];
            if (v.lastUsed + r.svc.affinityTimeout) % U64_SIZE > r.now % U32_SIZE
               && (v.backendId, r.svc.revNatIndex) in lb.matches
            then lb.affinity[key := v.(lastUsed := r.now % U32_SIZE)]
            else lb.affinity - {key})
  }

  /** So does every packet that does not continue a connection. */
  lemma NewConnection(lb: Lb, r: Request, cfg: Config)
    requires !r.forced && PacketFlags(r.p).Ok? && !Continues(lb, r, cfg)
    ensures var (lb', res) := Local(lb, r, cfg); ServedAnew(lb, r, lb', res)
  {
    hide LookupTuple, Restarts, Open;
    ServiceLookup(lb.ct, r, cfg);
    OpenMeaning(lb.(ct := LookupService(lb.ct, r, cfg).m), r, cfg);
  }

  lemma OpenMeaning(lb: Lb, r: Request, cfg: Config)
    ensures var (lb', res) := Open(lb, r, cfg); ServedAnew(lb, r, lb', res)
  {
    hide FreshEntry;
  }

  /** A backend forced by the caller: the connection is tracked without one, and neither backends nor affinity matter;
      services that punt to a proxy are not tracked at all. */
  lemma ForcedBackend(lb: Lb, r: Request, cfg: Config)
    requires r.forced && PacketFlags(r.p).Ok?
    ensures var (lb', res) := Local(lb, r, cfg); var key := ServiceKey(r);
            && lb' == lb.(ct := lb'.ct)
            && (r.svc.l7PuntProxy ==> lb' == lb && res == Ok(0))
            && (!r.svc.l7PuntProxy && Continues(lb, r, cfg) ==>
                  res == Ok(0) && key in lb'.ct && lb'.ct[key].info == lb.ct[key].info)
            && (!r.svc.l7PuntProxy && !Continues(lb, r, cfg) ==>
                  && res == (if r.ctOk then Ok(0) else Err(CtCreateFailed))
                  && (r.ctOk ==> Names(lb', key, 0, r.svc.revNatIndex)))
  {
    hide LookupTuple, Restarts, CreateEntry;
    ServiceLookup(lb.ct, r, cfg);
    var m := LookupService(lb.ct, r, cfg).m;
    CreatedEntry(m, r, 0, cfg);
    CreateOk(m, r, cfg);
  }

  lemma CreateOk(ct: Table, r: Request, cfg: Config)
    ensures CreateEntry(ct, false, ServiceKey(r), Service, Some(ServiceInfo(r, 0)), r.p.len, r.now, true, r.ctOk, cfg).1
            == r.ctOk
  {
  }

  /** Service connections are recorded apart from all others. */
  lemma ServiceKeysApart(r: Request, p: Pkt, dir: Dir, scope: Scope, cfg: Config)
    requires !dir.Service?
    ensures var t := Extract(p, TupleType(dir, scope), cfg);
            t.Ok? ==> t.value != ServiceKey(r) && t.value.Reverse() != ServiceKey(r)
  {
  }
}
