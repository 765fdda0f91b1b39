/** What the load balancer promises: the tables name the backend it returned, and a connection keeps its backend. */
module BalancerLaws {
  import opened Net
  import opened Conntrack
  import ConntrackLaws
  import opened LoadBalancer

  /** The service connection `key` is recorded with backend `id` of service `rev`. */
  ghost predicate Names(lb: Lb, key: Tuple, id: U32, rev: U16) {
    key in lb.ct && lb.ct[key].info.backendId == id && lb.ct[key].info.revNatIndex == rev
  }

  function ServiceQuery(r: Request): Query
    requires PacketFlags(r.p).Ok?
  {
    var (flags, action) := PacketFlags(r.p).value;
    Query(Service, r.p.proto == IPPROTO_TCP, flags, action, SVC_TYPE, r.svc.revNatIndex, r.now, r.p.len)
  }

  /** A SYN on a closing connection starts over, with a new choice of backend: at once if it is nothing but a SYN, and
      otherwise once the connection has been quiet for long enough. */
  predicate Restarts(e: Entry, r: Request, cfg: Config)
    requires PacketFlags(r.p).Ok?
  {
    && r.p.proto == IPPROTO_TCP && r.p.hasL4 && r.p.flags.Some?
    && var f := r.p.flags.value;
    && f.syn && (e.rxClosing || e.txClosing)
    && ((!f.ack && !f.rst && !f.fin) || (e.lastTx + cfg.rebalance) % U32_SIZE <= r.now)
  }

  /** A service lookup: what it does to the table, and what its status means. */
  lemma ServiceLookup(ct: Table, r: Request, cfg: Config)
    requires PacketFlags(r.p).Ok?
    ensures var f := LookupService(ct, r, cfg); var key := ServiceKey(r);
            && f.r.Ok? && f.m.Keys == ct.Keys
            && (f.r.value == New || f.r.value == Reply)
            && (forall k :: k in ct && k != key ==> f.m[k] == ct[k])
            && (key in ct ==> f.m[key].info == ct[key].info)
            && (f.r.value == Reply ==> key in ct && f.info == Some(ct[key].info))
            && (f.r.value == Reply <==>
                  key in ct && ct[key].info.revNatIndex == r.svc.revNatIndex && !Restarts(ct[key], r, cfg))
  {
    hide Touch;
    var key := ServiceKey(r);
    if key in ct {
      ConntrackLaws.TouchInfo(ct[key], ServiceQuery(r), cfg);
    }
  }

  lemma FlagsNeeded(ct: Table, r: Request, cfg: Config)
    requires PacketFlags(r.p).Err?
    ensures LookupService(ct, r, cfg).r.Err? && LookupService(ct, r, cfg).m == ct
  {
  }

  lemma CreatedEntry(ct: Table, r: Request, id: U32, cfg: Config)
    ensures var key := ServiceKey(r);
            var (ct', ok) := CreateEntry(ct, false, key, Service, Some(ServiceInfo(r, id)), r.p.len, r.now, true,
                                         r.ctOk, cfg);
            && (ok ==> key in ct' && ct'[key].info.backendId == id && ct'[key].info.revNatIndex == r.svc.revNatIndex)
            && (forall k :: k in ct && k != key ==> k in ct' && ct'[k] == ct[k])
  {
  }

  /** Both branches of the choice record it under the service key and leave other connections alone. */
  ghost predicate Records(lb: Lb, r: Request, lb': Lb, res: Result<U32>) {
    && (res.Ok? ==>
          && res.value in lb.backends
          && Names(lb', ServiceKey(r), res.value, r.svc.revNatIndex)
          && (r.svc.affinity && r.affinityOk ==>
                && AffinityKeyOf(r) in lb'.affinity
                && lb'.affinity[AffinityKeyOf(r)] == AffinityVal(Now32(r.now), res.value)))
    && (forall k :: k in lb.ct && k != ServiceKey(r) ==> k in lb'.ct && lb'.ct[k] == lb.ct[k])
    && lb'.backends == lb.backends && lb'.matches == lb.matches
  }

  lemma OpenRecords(lb: Lb, r: Request, cfg: Config)
    ensures var (lb', res) := Open(lb, r, cfg); Records(lb, r, lb', res)
  {
    hide CreateEntry;
    forall id { CreatedEntry(lb.ct, r, id, cfg); }
  }

  lemma ContinueRecords(lb: Lb, r: Request, id: U32)
    requires Names(lb, ServiceKey(r), id, r.svc.revNatIndex)
    ensures var (lb', res) := Continue(lb, r, id); Records(lb, r, lb', res)
  {
  }

  /** After every successful, not forced choice, conntrack names exactly the returned backend, which exists, and
      so does the affinity table if the service has affinity. */
  lemma ChoiceIsRecorded(lb: Lb, r: Request, cfg: Config)
    requires !r.forced
    ensures var (lb', res) := Local(lb, r, cfg); Records(lb, r, lb', res)
  {
    hide LookupTuple, Open, Continue;
    if PacketFlags(r.p).Ok? {
      ServiceLookup(lb.ct, r, cfg);
      var f := LookupService(lb.ct, r, cfg);
      if f.r.value == New {
        OpenRecords(lb.(ct := f.m), r, cfg);
      } else {
        ContinueRecords(lb.(ct := f.m), r, f.info.value.backendId);
      }
    } else {
      FlagsNeeded(lb.ct, r, cfg);
    }
  }

  // ---------------------------------------------------------------- runs

  datatype Step =
    | Serve(r: Request)
    | Agent(backends: map<U32, Backend>, matches: set<(U32, U16)>)
    | EvictConnection(key: Tuple)
    | EvictAffinity(client: AffinityKey)

  function Apply(lb: Lb, s: Step, cfg: Config): Lb {
    match s
    case Serve(r) => Local(lb, r, cfg).0
    case Agent(backends, matches) => lb.(backends := backends, matches := matches)
    case EvictConnection(key) => lb.(ct := lb.ct - {key})
    case EvictAffinity(client) => lb.(affinity := lb.affinity - {client})
  }

  /** When a packet of the connection `key`, recorded with backend `id`, must go to that backend: the backend is
      there, and active or draining this packet, and the packet is not a SYN on a closing connection. */
  ghost predicate MustStick(lb: Lb, r: Request, key: Tuple, id: U32, rev: U16, cfg: Config) {
    && r.svc.revNatIndex == rev && PacketFlags(r.p).Ok? && key in lb.ct
    && !Restarts(lb.ct[key], r, cfg)
    && (r.forced || Usable(lb, r, id) || Drains(lb, r, id))
  }

  /** Anything may happen to other connections, to backends and to affinity. */
  ghost predicate Respects(lb: Lb, s: Step, key: Tuple, id: U32, rev: U16, cfg: Config) {
    match s
    case Serve(r) => ServiceKey(r) == key ==> MustStick(lb, r, key, id, rev, cfg)
    case EvictConnection(k) => k != key
    case Agent(_, _) => true
    case EvictAffinity(_) => true
  }

  ghost predicate AllRespect(lb: Lb, steps: seq<Step>, key: Tuple, id: U32, rev: U16, cfg: Config)
    decreases |steps|
  {
    steps == [] || (Respects(lb, steps[0], key, id, rev, cfg)
                    && AllRespect(Apply(lb, steps[0], cfg), steps[1..], key, id, rev, cfg))
  }

  /** Every packet of the connection in the run was sent to `id`, and the connection is still recorded so. */
  ghost predicate AllStick(lb: Lb, steps: seq<Step>, key: Tuple, id: U32, rev: U16, cfg: Config)
    decreases |steps|
  {
    if steps == [] then Names(lb, key, id, rev)
    else
      && (steps[0].Serve? && ServiceKey(steps[0].r) == key && !steps[0].r.forced ==>
          Local(lb, steps[0].r, cfg).1 == Ok(id))
      && AllStick(Apply(lb, steps[0], cfg), steps[1..], key, id, rev, cfg)
  }

  lemma ServeSticks(lb: Lb, r: Request, key: Tuple, id: U32, rev: U16, cfg: Config)
    requires Names(lb, key, id, rev) && (ServiceKey(r) == key ==> MustStick(lb, r, key, id, rev, cfg))
    ensures Names(Local(lb, r, cfg).0, key, id, rev)
    ensures ServiceKey(r) == key && !r.forced ==> Local(lb, r, cfg).1 == Ok(id)
  {
    hide LookupTuple, Open, CreateEntry, Restarts;
    if r.forced {
      if PacketFlags(r.p).Ok? {
        ServiceLookup(lb.ct, r, cfg);
        CreatedEntry(LookupService(lb.ct, r, cfg).m, r, 0, cfg);
      } else {
        FlagsNeeded(lb.ct, r, cfg);
      }
    } else if ServiceKey(r) == key {
      ServiceLookup(lb.ct, r, cfg);
    } else {
      hide Local;
      ChoiceIsRecorded(lb, r, cfg);
    }
  }

  lemma StepSticks(lb: Lb, s: Step, key: Tuple, id: U32, rev: U16, cfg: Config)
    requires Names(lb, key, id, rev) && Respects(lb, s, key, id, rev, cfg)
    ensures Names(Apply(lb, s, cfg), key, id, rev)
    ensures s.Serve? && ServiceKey(s.r) == key && !s.r.forced ==> Local(lb, s.r, cfg).1 == Ok(id)
  {
    hide Local, MustStick;
    if s.Serve? {
      ServeSticks(lb, s.r, key, id, rev, cfg);
    }
  }

  /** Consistency over runs: whatever other clients, the agent and evictions do, the packets of a connection keep
      going to the backend it was given, as long as that backend must be kept. */
  lemma {:induction false} ConnectionSticks(lb: Lb, steps: seq<Step>, key: Tuple, id: U32, rev: U16, cfg: Config)
    requires Names(lb, key, id, rev) && AllRespect(lb, steps, key, id, rev, cfg)
    ensures AllStick(lb, steps, key, id, rev, cfg)
    decreases |steps|
  {
    hide Local, MustStick;
    if steps != [] {
      StepSticks(lb, steps[0], key, id, rev, cfg);
      ConnectionSticks(Apply(lb, steps[0], cfg), steps[1..], key, id, rev, cfg);
    }
  }

  // ---------------------------------------------------------------- affinity

  /** The client `key` is recorded with backend `id`. */
  ghost predicate Prefers(lb: Lb, key: AffinityKey, id: U32) {
    key in lb.affinity && lb.affinity[key].backendId == id
  }

  /** The record is younger than the service's timeout. */
  predicate Recent(v: AffinityVal, r: Request) {
    (v.lastUsed + r.svc.affinityTimeout) % U64_SIZE > Now32(r.now)
  }

  /** A request of the client that its record decides: a new connection while the record is recent, the backend
      exists and is still matched with the service; or a packet of a connection that is on the backend already. */
  ghost predicate MustHonour(lb: Lb, r: Request, id: U32, cfg: Config) {
    && r.svc.affinity && PacketFlags(r.p).Ok? && id != 0 && id in lb.backends && AffinityKeyOf(r) in lb.affinity
    && var f := LookupService(lb.ct, r, cfg);
    if f.r == Ok(New) then
      r.svc.count != 0 && Recent(lb.affinity[AffinityKeyOf(r)], r) && (id, r.svc.revNatIndex) in lb.matches
    else
      && f.r == Ok(Reply) && f.info.Some? && f.info.value.backendId == id
      && (Usable(lb, r, id) || Drains(lb, r, id))
  }

  /** Anything may happen to other clients, to connections and to backends. */
  ghost predicate Honours(lb: Lb, s: Step, key: AffinityKey, id: U32, cfg: Config) {
    match s
    case Serve(r) => AffinityKeyOf(r) == key && !r.forced ==> MustHonour(lb, r, id, cfg)
    case EvictAffinity(client) => client != key
    case EvictConnection(_) => true
    case Agent(_, _) => true
  }

  ghost predicate AllHonour(lb: Lb, steps: seq<Step>, key: AffinityKey, id: U32, cfg: Config)
    decreases |steps|
  {
    steps == [] || (Honours(lb, steps[0], key, id, cfg)
                    && AllHonour(Apply(lb, steps[0], cfg), steps[1..], key, id, cfg))
  }

  /** Every request of the client was sent to `id`, or failed only because no connection entry could be made. */
  ghost predicate AllPrefer(lb: Lb, steps: seq<Step>, key: AffinityKey, id: U32, cfg: Config)
    decreases |steps|
  {
    if steps == [] then Prefers(lb, key, id)
    else
      && (steps[0].Serve? && AffinityKeyOf(steps[0].r) == key && !steps[0].r.forced ==>
            var res := Local(lb, steps[0].r, cfg).1;
            res == Ok(id) || (!steps[0].r.ctOk && res == Err(CtCreateFailed)))
      && AllPrefer(Apply(lb, steps[0], cfg), steps[1..], key, id, cfg)
  }

  lemma OpenHonours(lb: Lb, r: Request, id: U32, cfg: Config)
    requires Prefers(lb, AffinityKeyOf(r), id) && r.svc.affinity && r.svc.count != 0 && id != 0 && id in lb.backends
    requires Recent(lb.affinity[AffinityKeyOf(r)], r) && (id, r.svc.revNatIndex) in lb.matches
    ensures var (lb', res) := Open(lb, r, cfg);
            Prefers(lb', AffinityKeyOf(r), id) && res == if r.ctOk then Ok(id) else Err(CtCreateFailed)
  {
    hide FreshEntry;
  }

  lemma ServeHonours(lb: Lb, r: Request, id: U32, cfg: Config)
    requires Prefers(lb, AffinityKeyOf(r), id) && !r.forced && MustHonour(lb, r, id, cfg)
    ensures var (lb', res) := Local(lb, r, cfg);
            Prefers(lb', AffinityKeyOf(r), id) && (res == Ok(id) || (!r.ctOk && res == Err(CtCreateFailed)))
  {
    hide LookupTuple, Open;
    var f := LookupService(lb.ct, r, cfg);
    if f.r == Ok(New) {
      OpenHonours(lb.(ct := f.m), r, id, cfg);
    }
  }

  /** Requests of other clients leave the record alone, and so do forced backends. */
  lemma ServeOther(lb: Lb, r: Request, key: AffinityKey, cfg: Config)
    requires key in lb.affinity && (AffinityKeyOf(r) != key || r.forced)
    ensures var lb' := Local(lb, r, cfg).0; key in lb'.affinity && lb'.affinity[key] == lb.affinity[key]
  {
    hide LookupTuple, CreateEntry;
  }

  lemma {:induction false} AffinityIsHonoured(lb: Lb, steps: seq<Step>, key: AffinityKey, id: U32, cfg: Config)
    requires Prefers(lb, key, id) && AllHonour(lb, steps, key, id, cfg)
    ensures AllPrefer(lb, steps, key, id, cfg)
    decreases |steps|
  {
    hide Local, MustHonour;
    if steps != [] {
      var s := steps[0];
      if s.Serve? {
        if AffinityKeyOf(s.r) == key && !s.r.forced {
          ServeHonours(lb, s.r, id, cfg);
        } else {
          ServeOther(lb, s.r, key, cfg);
        }
      }
      AffinityIsHonoured(Apply(lb, s, cfg), steps[1..], key, id, cfg);
    }
  }

  /** Affinity over runs: once a client of a service with affinity was given a backend, all its requests to the
      service go to that backend, whatever others do, as long as its record decides. */
  lemma ClientSticks(lb: Lb, r: Request, steps: seq<Step>, cfg: Config)
    requires !r.forced && r.svc.affinity && r.affinityOk && Local(lb, r, cfg).1.Ok?
    requires AllHonour(Local(lb, r, cfg).0, steps, AffinityKeyOf(r), Local(lb, r, cfg).1.value, cfg)
    ensures AllPrefer(Local(lb, r, cfg).0, steps, AffinityKeyOf(r), Local(lb, r, cfg).1.value, cfg)
  {
    hide Local, AllHonour, AllPrefer;
    ChoiceIsRecorded(lb, r, cfg);
    AffinityIsHonoured(Local(lb, r, cfg).0, steps, AffinityKeyOf(r), Local(lb, r, cfg).1.value, cfg);
  }
}
