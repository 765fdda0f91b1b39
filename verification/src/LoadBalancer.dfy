/** Backend choice for service traffic: recorded in conntrack, and in the affinity table for services with client
    affinity. */
module LoadBalancer {
  import opened Net
  import opened Conntrack

  datatype Frontend = Frontend(count: U16, revNatIndex: U16, affinity: bool, affinityTimeout: U32, l7PuntProxy: bool)

  datatype Backend = Backend(address: Addr, port: Port, active: bool)

  datatype AffinityKey = AffinityKey(clientIp: Addr, revNatId: U16)
  datatype AffinityVal = AffinityVal(lastUsed: U64, backendId: U32)

  /** The maps: conntrack and affinity are written by the datapath, backends and affinity matches by the agent. */
  datatype Lb = Lb(
    ct: Table, affinity: map<AffinityKey, AffinityVal>,
    backends: map<U32, Backend>, matches: set<(U32, U16)>)

  /** One packet to a service. `choice` is the outcome of the backend selection algorithm (0 if it found none),
      `ctOk` and `affinityOk` the outcomes of the map updates. */
  datatype Request = Request(
    tuple: Tuple, p: Pkt, svc: Frontend, choice: U32, forced: bool, now: U64, ctOk: bool, affinityOk: bool)

  /** Where the service connection of a packet is recorded. */
  function ServiceKey(r: Request): Tuple { r.tuple.(flags := F_SERVICE) }

  const SVC_TYPE := OfTypes(false, false, true)

  /** ct_lazy_lookup4 for CT_SERVICE */
  function LookupService(ct: Table, r: Request, cfg: Config): Found {
    LookupTuple(ct, ServiceKey(r), r.p, Service, Reverse, SVC_TYPE, r.svc.revNatIndex, r.now, cfg)
  }

  /** state->syn: the packet is a bare TCP SYN. */
  predicate IsSyn(p: Pkt) {
    p.proto == IPPROTO_TCP && p.hasL4 && p.flags.Some? && BareSyn(p.flags.value)
  }

  function AffinityKeyOf(r: Request): AffinityKey { AffinityKey(r.tuple.saddr, r.svc.revNatIndex) }

  /** __lb4_affinity_backend_id: 0 means no usable entry; unusable entries are deleted, used ones refreshed. */
  function AffinityLookup(lb: Lb, r: Request): (Lb, U32) {
    var key := AffinityKeyOf(r);
    if key !in lb.affinity then (lb, 0)
    else
      var v := lb.affinity[key];
      if (v.lastUsed + r.svc.affinityTimeout) % U64_SIZE <= Now32(r.now)
         || (v.backendId, key.revNatId) !in lb.matches then
        (lb.(affinity := lb.affinity - {key}), 0)
      else (lb.(affinity := lb.affinity[key := v.(lastUsed := Now32(r.now))]), v.backendId)
  }

  /** __lb4_update_affinity, if the service has affinity. */
  function UpdateAffinity(lb: Lb, r: Request, id: U32): Lb {
    if r.svc.affinity && r.affinityOk then
      lb.(affinity := lb.affinity[AffinityKeyOf(r) := AffinityVal(Now32(r.now), id)])
    else lb
  }

  function ServiceInfo(r: Request, id: U32): Info { NO_INFO.(revNatIndex := r.svc.revNatIndex, backendId := id) }

  /** The backend for a connection without usable conntrack entry; the entry is created. */
  function Open(lb: Lb, r: Request, cfg: Config): (Lb, Result<U32>) {
    if r.svc.count == 0 then (lb, Err(NoService))
    else
      var (lb1, sticky) := if r.svc.affinity then AffinityLookup(lb, r) else (lb, 0);
      var id := if sticky != 0 && sticky in lb.backends then sticky else r.choice;
      if id !in lb.backends then (lb1, Err(NoService))
      else
        var (ct, ok) := CreateEntry(lb1.ct, false, ServiceKey(r), Service, Some(ServiceInfo(r, id)), r.p.len, r.now,
                                    true, r.ctOk, cfg);
        if ok then (UpdateAffinity(lb1.(ct := ct), r, id), Ok(id)) else (lb1, Err(CtCreateFailed))
  }

  /** A backend that is not active still serves its old connections, except UDP. */
  predicate Drains(lb: Lb, r: Request, id: U32) {
    id in lb.backends && !IsSyn(r.p) && r.p.proto != IPPROTO_UDP
  }

  predicate Usable(lb: Lb, r: Request, id: U32) {
    id in lb.backends && lb.backends[id].active
  }

  /** The backend for a connection whose entry names `id`. */
  function Continue(lb: Lb, r: Request, id: U32): (Lb, Result<U32>) {
    if Usable(lb, r, id) || Drains(lb, r, id) then (UpdateAffinity(lb, r, id), Ok(id))
    else if r.svc.count == 0 then
      if id in lb.backends && r.p.proto == IPPROTO_UDP then (UpdateAffinity(lb, r, id), Ok(id))
      else (lb, Err(NoService))
    else if r.choice !in lb.backends then (lb, Err(NoService))
    else
      (UpdateAffinity(lb.(ct := UpdateBackend(lb.ct, ServiceKey(r), r.choice, r.svc.revNatIndex)), r, r.choice),
       Ok(r.choice))
  }

  /** lb4_local. A forced backend only touches conntrack; its caller already knows the backend, so the result
      is just success (0). */
  function Local(lb: Lb, r: Request, cfg: Config): (Lb, Result<U32>) {
    if r.forced then
      if r.svc.l7PuntProxy then (lb, Ok(0))
      else
        var f := LookupService(lb.ct, r, cfg);
        if f.r.Err? then (lb.(ct := f.m), Err(f.r.error))
        else if f.r.value == New then
          var (ct, ok) := CreateEntry(f.m, false, ServiceKey(r), Service, Some(ServiceInfo(r, 0)), r.p.len, r.now,
                                      true, r.ctOk, cfg);
          (lb.(ct := ct), if ok then Ok(0) else Err(CtCreateFailed))
        else (lb.(ct := f.m), Ok(0))
    else
      var f := LookupService(lb.ct, r, cfg);
      var lb1 := lb.(ct := f.m);
      match f.r
      case Err(e) => (lb1, Err(e))
      case Ok(status) =>
        if status == New then Open(lb1, r, cfg)
        else if status == Reply then Continue(lb1, r, f.info.value.backendId)
        else (lb1, Err(UnknownCt))
  }

  lemma ReplyHasInfo(ct: Table, r: Request, cfg: Config)
    ensures LookupService(ct, r, cfg).r == Ok(Reply) ==> LookupService(ct, r, cfg).info.Some?
  {
    hide Touch;
  }

  /** The load balancer's maps, updated in place. */
  class Balancer {
    const ct: CtMap
    var affinity: map<AffinityKey, AffinityVal>
    var backends: map<U32, Backend>
    var matches: set<(U32, U16)>

    constructor (ct: CtMap)
      ensures this.ct == ct && affinity == map[] && backends == map[] && matches == {}
    {
      this.ct := ct;
      affinity, backends, matches := map[], map[], {};
    }

    function State(): Lb
      reads this, ct
    {
      Lb(ct.table, affinity, backends, matches)
    }

    method LookupAffinity(r: Request) returns (id: U32)
      modifies `affinity
      ensures (State(), id) == AffinityLookup(old(State()), r)
    {
      var key := AffinityKeyOf(r);
      if key !in affinity { return 0; }
      var v := affinity[key];
      if (v.lastUsed + r.svc.affinityTimeout) % U64_SIZE <= Now32(r.now) {
        affinity := affinity - {key};
        return 0;
      }
      if (v.backendId, key.revNatId) !in matches {
        affinity := affinity - {key};
        return 0;
      }
      affinity := affinity[key := v.(lastUsed := Now32(r.now))];
      id := v.backendId;
    }

    method StoreAffinity(r: Request, id: U32)
      modifies `affinity
      ensures State() == UpdateAffinity(old(State()), r, id)
    {
      if r.svc.affinity && r.affinityOk {
        affinity := affinity[AffinityKeyOf(r) := AffinityVal(Now32(r.now), id)];
      }
    }

    /** The CT_NEW branch of lb4_local */
    method OpenConnection(r: Request, cfg: Config) returns (res: Result<U32>)
      modifies `affinity, ct
      ensures (State(), res) == Open(old(State()), r, cfg)
    {
      hide FreshEntry;
      if r.svc.count == 0 { return Err(NoService); }
      var id: U32 := 0;
      if r.svc.affinity {
        id := LookupAffinity(r);
        if id != 0 && id !in backends { id := 0; }
      }
      if id == 0 {
        id := r.choice;
        if id !in backends { return Err(NoService); }
      }
      var ok := ct.Create4(false, ServiceKey(r), Service, Some(ServiceInfo(r, id)), r.p.len, r.now, true, r.ctOk, cfg);
      if !ok { return Err(CtCreateFailed); }
      StoreAffinity(r, id);
      res := Ok(id);
    }

    /** The CT_REPLY branch of lb4_local */
    method ContinueConnection(r: Request, named: U32) returns (res: Result<U32>)
      modifies `affinity, ct
      ensures (State(), res) == Continue(old(State()), r, named)
    {
      var id := named;
      if id !in backends || !backends[id].active {
        if !(id in backends && !IsSyn(r.p) && r.p.proto != IPPROTO_UDP) {
          if r.svc.count == 0 {
            if !(id in backends && r.p.proto == IPPROTO_UDP) { return Err(NoService); }
          } else {
            id := r.choice;
            if id !in backends { return Err(NoService); }
            ct.table := UpdateBackend(ct.table, ServiceKey(r), id, r.svc.revNatIndex);
          }
        }
      }
      StoreAffinity(r, id);
      res := Ok(id);
    }

    /** lb4_local */
    method LocalBackend(r: Request, cfg: Config) returns (res: Result<U32>)
      modifies `affinity, ct
      ensures (State(), res) == Local(old(State()), r, cfg)
    {
      hide LookupTuple, Open, Continue, FreshEntry;
      if r.forced {
        if !r.svc.l7PuntProxy {
          var _, ret, _ := ct.LookupBoth(ServiceKey(r), r.p, Service, Reverse, SVC_TYPE, r.svc.revNatIndex, r.now, cfg);
          if ret.Err? { return Err(ret.error); }
          if ret.value == New {
            var ok := ct.Create4(false, ServiceKey(r), Service, Some(ServiceInfo(r, 0)), r.p.len, r.now, true, r.ctOk,
                                 cfg);
            if !ok { return Err(CtCreateFailed); }
          }
        }
        return Ok(0);
      }
      var _, ret, info := ct.LookupBoth(ServiceKey(r), r.p, Service, Reverse, SVC_TYPE, r.svc.revNatIndex, r.now, cfg);
      ReplyHasInfo(old(ct.table), r, cfg);
      if ret.Err? { return Err(ret.error); }
      if ret.value == New {
        res := OpenConnection(r, cfg);
      } else if ret.value == Reply {
        res := ContinueConnection(r, info.value.backendId);
      } else {
        res := Err(UnknownCt);
      }
    }
  }
}
