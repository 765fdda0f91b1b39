/** What socket load balancing promises: the peer a program sees is the one it dialled, however the tables change
    meanwhile, until the service changes or the entry is lost. */
module SocketLaws {
  import opened Net
  import opened LoadBalancer
  import opened SocketLb

  ghost predicate Holds(m: Maps, key: RevKey, v: RevVal) {
    key in m.revSk && m.revSk[key] == v
  }

  /** The call redirects the socket, and not just lets it pass. */
  ghost predicate Redirects(m: Maps, s: Sock, i: Input, opt: Options) {
    Decide(m, s, i, opt).Go? && Forward(m, s, i, opt).code == Done
  }

  /** Finding a service reads no table that the programs write. */
  lemma SameService(m: Maps, m': Maps, address: Addr, port: Port, proto: U8, hostns: bool, opt: Options)
    requires m'.services == m.services && m'.ipcache == m.ipcache
    ensures FindService(m', address, port, proto, hostns, opt) == FindService(m, address, port, proto, hostns, opt)
  {
  }

  lemma ChoiceFrame(m: Maps, s: Sock, key: SvcKey, svc: Svc, i: Input, opt: Options)
    requires svc.count != 0
    ensures var c := ChooseBackend(m, s, key, svc, i, opt); c.m == m.(affinity := c.m.affinity)
  {
  }

  lemma DecideFrame(m: Maps, s: Sock, i: Input, opt: Options)
    ensures var d := Decide(m, s, i, opt);
            && d.m == m.(affinity := d.m.affinity)
            && (d.Go? ==> var l := FindService(m, s.ip, s.port, s.proto, s.hostns, opt);
                          l.svc == Some(d.svc) && HasBackends(d.svc, opt))
  {
    hide FindService, ChooseBackend, SkipsXlate, DropsNonRoutable;
    var l := FindService(m, s.ip, s.port, s.proto, s.hostns, opt);
    if l.svc.Some? && l.svc.value.count != 0 {
      ChoiceFrame(m, s, l.key, l.svc.value, i, opt);
    }
  }

  /** A redirected socket's entry names the dialled address, for a service that is live. */
  lemma RedirectRecords(m: Maps, s: Sock, i: Input, opt: Options)
    requires Redirects(m, s, i, opt)
    ensures var o := Forward(m, s, i, opt);
            var v := RevVal(s.ip, s.port, Decide(m, s, i, opt).svc.revNatIndex);
            && Holds(o.m, RevKey(s.cookie, o.s.ip, o.s.port), v)
            && Live(o.m, v, s.proto, s.hostns, opt)
            && o.s == s.(ip := o.s.ip, port := o.s.port)
  {
    hide Decide, FindService;
    DecideFrame(m, s, i, opt);
    SameService(m, Forward(m, s, i, opt).m, s.ip, s.port, s.proto, s.hostns, opt);
  }

  /** The round trip: reverse translation of a redirected socket restores it exactly. */
  lemma RedirectRoundTrip(m: Maps, s: Sock, i: Input, opt: Options)
    requires Redirects(m, s, i, opt)
    ensures var o := Forward(m, s, i, opt); Reverse(o.m, o.s, opt) == Outcome(o.m, s, Done)
  {
    hide Forward, Live;
    RedirectRecords(m, s, i, opt);
  }

  /** Reverse translation happens exactly for a live entry; a stale one is deleted and the address left alone. */
  lemma ReverseIff(m: Maps, s: Sock, opt: Options)
    ensures var key := RevKey(s.cookie, s.ip, s.port); var o := Reverse(m, s, opt);
            && (o.code == Done <==> key in m.revSk && Live(m, m.revSk[key], s.proto, s.hostns, opt))
            && (o.code != Done ==> o.s == s && o.m.revSk == m.revSk - {key})
            && o.m == m.(revSk := o.m.revSk)
  {
    hide Live;
    var key := RevKey(s.cookie, s.ip, s.port);
    if key !in m.revSk { assert m.revSk - {key} == m.revSk; }
  }

  // ---------------------------------------------------------------- runs

  datatype Step =
    | Connect(s: Sock, i: Input)
    | Peer(s: Sock)
    | Release(key: RevKey)
    | EvictRevNat(key: RevKey)
    | EvictAffinity(client: NetnsKey)
    | Agent(services: map<SvcKey, Svc>, backends: map<U32, Backend>, ipcache: map<Addr, Endpoint>,
            matches: set<(U32, U16)>, skip: set<(U64, Addr, Port)>)

  function Apply(m: Maps, step: Step, opt: Options): Maps {
    match step
    case Connect(s, i) => Forward(m, s, i, opt).m
    case Peer(s) => Reverse(m, s, opt).m
    case Release(key) => m.(revSk := m.revSk - {key})
    case EvictRevNat(key) => m.(revSk := m.revSk - {key})
    case EvictAffinity(client) => m.(affinity := m.affinity - {client})
    case Agent(services, backends, ipcache, matches, skip) =>
      Maps(services, backends, ipcache, matches, skip, m.affinity, m.revSk)
  }

  /** The call would write this pair of socket and backend. */
  ghost predicate Writes(m: Maps, s: Sock, i: Input, key: RevKey, opt: Options) {
    Decide(m, s, i, opt).Go? && KeyOf(s, Decide(m, s, i, opt).backend) == key
  }

  /** What ends the promise for an entry `v` of the socket `key.cookie`, which has this protocol and is or is not in
      the host namespace: the entry is removed; the same socket reaches the same backend through another address or
      service; or the agent changes the service. */
  ghost predicate Respects(m: Maps, step: Step, key: RevKey, v: RevVal, proto: U8, hostns: bool, opt: Options) {
    match step
    case Connect(s, i) =>
      Writes(m, s, i, key, opt) ==> RevVal(s.ip, s.port, Decide(m, s, i, opt).svc.revNatIndex) == v
    case Peer(s) => s.cookie == key.cookie ==> s.proto == proto && s.hostns == hostns
    case Release(k) => k != key
    case EvictRevNat(k) => k != key
    case EvictAffinity(_) => true
    case Agent(_, _, _, _, _) => Live(Apply(m, step, opt), v, proto, hostns, opt)
  }

  ghost predicate AllRespect(m: Maps, steps: seq<Step>, key: RevKey, v: RevVal, proto: U8, hostns: bool, opt: Options)
    decreases |steps|
  {
    steps == []
    || (Respects(m, steps[0], key, v, proto, hostns, opt)
        && AllRespect(Apply(m, steps[0], opt), steps[1..], key, v, proto, hostns, opt))
  }

  ghost predicate AsksFor(step: Step, key: RevKey) {
    step.Peer? && RevKey(step.s.cookie, step.s.ip, step.s.port) == key
  }

  /** Every look at the peer during the run showed `v`, and the entry is still there. */
  ghost predicate AlwaysShows(m: Maps, steps: seq<Step>, key: RevKey, v: RevVal, opt: Options)
    decreases |steps|
  {
    if steps == [] then Holds(m, key, v)
    else
      && (AsksFor(steps[0], key) ==>
            Reverse(m, steps[0].s, opt) == Outcome(m, steps[0].s.(ip := v.address, port := v.port), Done))
      && AlwaysShows(Apply(m, steps[0], opt), steps[1..], key, v, opt)
  }

  /** Only the agent changes which service is behind an address. */
  lemma StepKeepsServices(m: Maps, step: Step, opt: Options)
    ensures !step.Agent? ==> Apply(m, step, opt).services == m.services && Apply(m, step, opt).ipcache == m.ipcache
  {
    hide Decide, Live;
    if step.Connect? { DecideFrame(m, step.s, step.i, opt); }
  }

  lemma StepKeepsLive(m: Maps, step: Step, key: RevKey, v: RevVal, proto: U8, hostns: bool, opt: Options)
    requires Live(m, v, proto, hostns, opt) && Respects(m, step, key, v, proto, hostns, opt)
    ensures Live(Apply(m, step, opt), v, proto, hostns, opt)
  {
    hide Apply, FindService, HasBackends, Writes;
    if !step.Agent? {
      StepKeepsServices(m, step, opt);
      SameService(m, Apply(m, step, opt), v.address, v.port, proto, hostns, opt);
    }
  }

  lemma ConnectKeeps(m: Maps, s: Sock, i: Input, key: RevKey, v: RevVal, opt: Options)
    requires Holds(m, key, v)
    requires Writes(m, s, i, key, opt) ==> RevVal(s.ip, s.port, Decide(m, s, i, opt).svc.revNatIndex) == v
    ensures Holds(Forward(m, s, i, opt).m, key, v)
  {
    hide Decide;
    DecideFrame(m, s, i, opt);
  }

  lemma StepKeeps(m: Maps, step: Step, key: RevKey, v: RevVal, proto: U8, hostns: bool, opt: Options)
    requires Holds(m, key, v) && Live(m, v, proto, hostns, opt) && Respects(m, step, key, v, proto, hostns, opt)
    ensures Holds(Apply(m, step, opt), key, v)
    ensures AsksFor(step, key) ==> Reverse(m, step.s, opt) == Outcome(m, step.s.(ip := v.address, port := v.port), Done)
  {
    hide Forward, Live, Decide, Writes;
    if step.Connect? {
      ConnectKeeps(m, step.s, step.i, key, v, opt);
    }
  }

  lemma {:induction false} EntryShows(m: Maps, steps: seq<Step>, key: RevKey, v: RevVal, proto: U8, hostns: bool,
                                      opt: Options)
    requires Holds(m, key, v) && Live(m, v, proto, hostns, opt) && AllRespect(m, steps, key, v, proto, hostns, opt)
    ensures AlwaysShows(m, steps, key, v, opt)
    decreases |steps|
  {
    hide Apply, Reverse, Respects, Live;
    if steps != [] {
      StepKeeps(m, steps[0], key, v, proto, hostns, opt);
      StepKeepsLive(m, steps[0], key, v, proto, hostns, opt);
      EntryShows(Apply(m, steps[0], opt), steps[1..], key, v, proto, hostns, opt);
    }
  }

  /** The round trip over runs: from a redirected connect on, whatever other sockets, the agent and evictions do,
      every look at the peer shows the address dialled, until the agent changes the service, or the entry is
      removed or overwritten. */
  lemma PeerIsDialled(m: Maps, s: Sock, i: Input, steps: seq<Step>, opt: Options)
    requires Redirects(m, s, i, opt)
    requires var o := Forward(m, s, i, opt);
             AllRespect(o.m, steps, RevKey(s.cookie, o.s.ip, o.s.port),
                        RevVal(s.ip, s.port, Decide(m, s, i, opt).svc.revNatIndex), s.proto, s.hostns, opt)
    ensures var o := Forward(m, s, i, opt);
            AlwaysShows(o.m, steps, RevKey(s.cookie, o.s.ip, o.s.port),
                        RevVal(s.ip, s.port, Decide(m, s, i, opt).svc.revNatIndex), opt)
  {
    hide Forward, Decide, Live, AllRespect, AlwaysShows;
    var o := Forward(m, s, i, opt);
    RedirectRecords(m, s, i, opt);
    EntryShows(o.m, steps, RevKey(s.cookie, o.s.ip, o.s.port),
               RevVal(s.ip, s.port, Decide(m, s, i, opt).svc.revNatIndex), s.proto, s.hostns, opt);
  }

  /** Nothing in the run writes the pair again. */
  ghost predicate NeverWrites(m: Maps, steps: seq<Step>, key: RevKey, opt: Options)
    decreases |steps|
  {
    steps == []
    || (!(steps[0].Connect? && Writes(m, steps[0].s, steps[0].i, key, opt))
        && NeverWrites(Apply(m, steps[0], opt), steps[1..], key, opt))
  }

  /** Every look at the peer during the run left the address alone. */
  ghost predicate NeverTouches(m: Maps, steps: seq<Step>, key: RevKey, opt: Options)
    decreases |steps|
  {
    if steps == [] then key !in m.revSk
    else
      && (AsksFor(steps[0], key) ==> Reverse(m, steps[0].s, opt) == Outcome(m, steps[0].s, Enxio))
      && NeverTouches(Apply(m, steps[0], opt), steps[1..], key, opt)
  }

  lemma AbsentStep(m: Maps, step: Step, key: RevKey, opt: Options)
    requires key !in m.revSk && !(step.Connect? && Writes(m, step.s, step.i, key, opt))
    ensures key !in Apply(m, step, opt).revSk
  {
    hide Decide, Live;
    if step.Connect? { DecideFrame(m, step.s, step.i, opt); }
  }

  lemma {:induction false} AbsentStays(m: Maps, steps: seq<Step>, key: RevKey, opt: Options)
    requires key !in m.revSk && NeverWrites(m, steps, key, opt)
    ensures NeverTouches(m, steps, key, opt)
    decreases |steps|
  {
    hide Apply, Writes, Live;
    if steps != [] {
      AbsentStep(m, steps[0], key, opt);
      AbsentStays(Apply(m, steps[0], opt), steps[1..], key, opt);
    }
  }

  /** A stale entry is used for nothing: the look that finds it stale leaves the address alone, and so does every
      later one until the pair is written again. */
  lemma StaleIsDropped(m: Maps, s: Sock, steps: seq<Step>, opt: Options)
    requires var key := RevKey(s.cookie, s.ip, s.port);
             && key in m.revSk && !Live(m, m.revSk[key], s.proto, s.hostns, opt)
             && NeverWrites(Reverse(m, s, opt).m, steps, key, opt)
    ensures var key := RevKey(s.cookie, s.ip, s.port); var o := Reverse(m, s, opt);
            && o.s == s && o.code == Enoent && o.m == m.(revSk := m.revSk - {key})
            && NeverTouches(o.m, steps, key, opt)
  {
    hide Live, NeverWrites, NeverTouches;
    AbsentStays(Reverse(m, s, opt).m, steps, RevKey(s.cookie, s.ip, s.port), opt);
  }
}
