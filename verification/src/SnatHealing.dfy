/** What eviction from the SNAT table costs: a pair that lost one half is completed again by the flow's own next
    packet, whatever happened in between, and a flow shares its translation only once its freed key was taken. */
module SnatHealing {
  import opened Net
  import opened SnatTable

  /** The table without its timestamps. */
  function Untimed(m: Table): Table {
    map k | k in m :: m[k].(created := 0)
  }

  /** The key is in no table of the run. */
  ghost predicate NotTaken(m: Table, steps: seq<Step>, key: Tuple)
    decreases |steps|
  {
    key !in m && (steps == [] || NotTaken(Apply(m, steps[0]), steps[1..], key))
  }

  // ---------------------------------------------------------------- the reverse half is lost

  /** Two tables that agree on a flow's candidate keys from probe `i` on agree on its allocation. */
  lemma {:induction false} SameProbes(m: Table, n: Table, o: Tuple, target: NatTarget, env: Env, i: nat)
    requires i <= SNAT_COLLISION_RETRIES
    requires forall j :: i <= j < SNAT_COLLISION_RETRIES ==>
               (Free(m, o, target, env, j) <==> Free(n, o, target, env, j))
    ensures FirstFree(m, o, target, env, i) == FirstFree(n, o, target, env, i)
    decreases SNAT_COLLISION_RETRIES - i
  {
    hide Free;
    if i < SNAT_COLLISION_RETRIES { SameProbes(m, n, o, target, env, i + 1); }
  }

  lemma {:induction false} SameUpTo(m: Table, rkey: Tuple, o: Tuple, target: NatTarget, env: Env, i: nat)
    requires i <= SNAT_COLLISION_RETRIES
    ensures var f := FirstFree(m - {rkey}, o, target, env, i);
            || f == FirstFree(m, o, target, env, i)
            || (f.Some? && ReverseKey(o, Candidate(o, target, env, f.value)) == rkey)
    decreases SNAT_COLLISION_RETRIES - i
  {
    hide Candidate;
    if i < SNAT_COLLISION_RETRIES { SameUpTo(m, rkey, o, target, env, i + 1); }
  }

  /** A failed allocation that rolls back leaves the table alone. */
  lemma RolledBack(m: Table, o: Tuple, target: NatTarget, env: Env)
    requires !env.forwardOk && env.rollbackOk
    ensures Allocate(m, o, target, env).0 == m
  {
    hide Candidate;
  }

  /** Allocation with and without the lost key differs by just that key, unless it takes the key. */
  lemma AllocateLost(m: Table, rkey: Tuple, o: Tuple, target: NatTarget, env: Env)
    requires o.flags == F_OUT && rkey.flags == F_IN
    requires rkey !in Allocate(m - {rkey}, o, target, env).0
    ensures Allocate(m - {rkey}, o, target, env).0 == Allocate(m, o, target, env).0 - {rkey}
  {
    hide Candidate;
    if !env.forwardOk && env.rollbackOk {
      RolledBack(m, o, target, env);
      RolledBack(m - {rkey}, o, target, env);
    } else {
      SameUpTo(m, rkey, o, target, env, 0);
    }
  }

  lemma OutgoingLost(m: Table, k: Tuple, t: Tuple, target: NatTarget, env: Env)
    requires ForwardBacked(m) && k in m && k.flags == t.flags == F_OUT && Spares(Out(t, target, env), k, m[k])
    requires ReverseKey(k, m[k]) !in Outgoing(m - {ReverseKey(k, m[k])}, t, target, env).0
    ensures var rkey := ReverseKey(k, m[k]);
            Outgoing(m - {rkey}, t, target, env).0 == Outgoing(m, t, target, env).0 - {rkey}
  {
    hide Allocate;
    var rkey := ReverseKey(k, m[k]);
    assert HasReverse(m, k);
    if t !in m {
      if env.mapFound && (target.needsCt ==> env.ctOk) { AllocateLost(m, rkey, t, target, env); }
    } else if t != k {
      var r := ReverseKey(t, m[t]);
      assert HasReverse(m, t);
      if r == rkey { ReverseKeyOwner(m, t, k); }
      var gone := if env.deleteReverseOk then {t, r} else {t};
      assert m - {rkey} - gone == m - gone - {rkey};
      if env.mapFound && (target.needsCt ==> env.ctOk) && env.deleteForwardOk
         && !(target.addr == m[t].addr && target.needsCt == m[t].needsCt) {
        AllocateLost(m - gone, rkey, t, target, env);
      }
    }
  }

  lemma StepLost(m: Table, k: Tuple, s: Step)
    requires ForwardBacked(m) && k in m && k.flags == F_OUT && WellFormed(s) && Spares(s, k, m[k])
    requires ReverseKey(k, m[k]) !in Apply(m - {ReverseKey(k, m[k])}, s)
    ensures var rkey := ReverseKey(k, m[k]); Apply(m - {rkey}, s) == Apply(m, s) - {rkey}
  {
    hide Outgoing;
    assert HasReverse(m, k);
    match s
    case Out(t, target, env) => OutgoingLost(m, k, t, target, env);
    case In(t, env) =>
    case EvictForward(t) =>
  }

  /** A run without the reverse entry of a flow goes exactly like the run with it, until somebody takes its key. */
  lemma {:induction false} RunLost(m: Table, k: Tuple, steps: seq<Step>)
    requires ForwardBacked(m) && k in m && k.flags == F_OUT
    requires forall i :: 0 <= i < |steps| ==> WellFormed(steps[i]) && Spares(steps[i], k, m[k])
    requires NotTaken(m - {ReverseKey(k, m[k])}, steps, ReverseKey(k, m[k]))
    ensures var rkey := ReverseKey(k, m[k]); Run(m - {rkey}, steps) == Run(m, steps) - {rkey}
    decreases |steps|
  {
    hide Apply, ForwardBacked, Spares;
    if steps != [] {
      var s := steps[0];
      assert WellFormed(s) && Spares(s, k, m[k]);
      StepLost(m, k, s);
      StepSpares(m, s, k);
      StepKeepsForwardBacked(m, s);
      RunLost(Apply(m, s), k, steps[1..]);
    }
  }

  /** If the reverse half of a pair is lost and its key not taken meanwhile, the next outgoing packet of the flow
      restores exactly the table that would have been without the loss. */
  lemma HealReverse(m: Table, k: Tuple, steps: seq<Step>, target: NatTarget, env: Env)
    requires ForwardBacked(m) && k in m && k.flags == F_OUT
    requires forall i :: 0 <= i < |steps| ==> WellFormed(steps[i]) && Spares(steps[i], k, m[k])
    requires NotTaken(m - {ReverseKey(k, m[k])}, steps, ReverseKey(k, m[k]))
    requires target.addr == m[k].addr && target.needsCt == m[k].needsCt
    requires env.mapFound && env.ctOk && env.restoreOk
    ensures var lost := Run(m - {ReverseKey(k, m[k])}, steps);
            var (m', r) := Outgoing(lost, k, target, env);
            r == Ok(m[k]) && Untimed(m') == Untimed(Run(m, steps))
  {
    hide Run, NotTaken;
    var rkey := ReverseKey(k, m[k]);
    RunLost(m, k, steps);
    TranslationIsStable(m, steps, k);
    assert HasReverse(m, k);
    var n := Run(m, steps);
    var m' := Outgoing(n - {rkey}, k, target, env).0;
    assert m' == n[rkey := n[rkey].(created := env.now)];
  }

  // ---------------------------------------------------------------- the forward half is lost

  /** A packet of the flow itself whose two insertions and rollback all go wrong: a second reverse entry stays. */
  ghost predicate LeavesOrphan(m: Table, s: Step, k: Tuple) {
    && s.Out? && s.t == k && s.env.mapFound && (s.target.needsCt ==> s.env.ctOk)
    && FirstFree(m, k, s.target, s.env, 0).Some? && !s.env.forwardOk && !s.env.rollbackOk
  }

  ghost predicate Clean(m: Table, steps: seq<Step>, k: Tuple)
    decreases |steps|
  {
    steps == [] || (!LeavesOrphan(m, steps[0], k) && Clean(Apply(m, steps[0]), steps[1..], k))
  }

  /** Allocation does not look at forward keys. */
  lemma AllocateForgets(m: Table, k: Tuple, t: Tuple, target: NatTarget, env: Env)
    requires k.flags == F_OUT && t != k
    ensures Allocate(m - {k}, t, target, env).0 == Allocate(m, t, target, env).0 - {k}
  {
    hide Candidate;
    SameProbes(m - {k}, m, t, target, env, 0);
  }

  lemma OutgoingForgets(m: Table, k: Tuple, t: Tuple, target: NatTarget, env: Env)
    requires ForwardBacked(m) && k in m && k.flags == t.flags == F_OUT && t != k
    ensures Outgoing(m - {k}, t, target, env).0 == Outgoing(m, t, target, env).0 - {k}
  {
    hide Allocate;
    AllocateForgets(m, k, t, target, env);
    if t in m {
      assert HasReverse(m, t);
      var gone := if env.deleteReverseOk then {t, ReverseKey(t, m[t])} else {t};
      assert m - {k} - gone == m - gone - {k};
      AllocateForgets(m - gone, k, t, target, env);
    }
  }

  /** The flow's own packet, while its forward entry is lost: it takes the key, leaves an orphan, or does nothing. */
  lemma OwnPacket(m: Table, k: Tuple, s: Step)
    requires s.Out? && s.t == k && k !in m && k !in Apply(m, s)
    ensures if LeavesOrphan(m, s, k)
            then var o := ReverseKey(k, Candidate(k, s.target, s.env, FirstFree(m, k, s.target, s.env, 0).value));
                 o !in m && Apply(m, s) == m[o := NatEntry(s.env.now, s.target.needsCt, k.saddr, k.sport)]
            else Apply(m, s) == m
  {
    hide Candidate;
    if !s.env.forwardOk && s.env.rollbackOk { RolledBack(m, k, s.target, s.env); }
  }

  /** With both halves there, a packet of a flow that is not retargeted changes nothing. */
  lemma OwnPacketIdle(m: Table, k: Tuple, s: Step)
    requires ForwardBacked(m) && k in m && k.flags == F_OUT && s.Out? && s.t == k && Spares(s, k, m[k])
    ensures Apply(m, s) == m
  {
    assert HasReverse(m, k);
  }

  lemma StepForgets(m: Table, k: Tuple, s: Step)
    requires ForwardBacked(m) && k in m && k.flags == F_OUT && WellFormed(s) && Spares(s, k, m[k])
    requires k !in Apply(m - {k}, s) && !LeavesOrphan(m - {k}, s, k)
    ensures Apply(m - {k}, s) == Apply(m, s) - {k}
  {
    hide Outgoing, LeavesOrphan;
    match s
    case Out(t, target, env) =>
      if t == k {
        OwnPacket(m - {k}, k, s);
        OwnPacketIdle(m, k, s);
      } else {
        OutgoingForgets(m, k, t, target, env);
      }
    case In(t, env) =>
    case EvictForward(t) =>
  }

  lemma {:induction false} RunForgets(m: Table, k: Tuple, steps: seq<Step>)
    requires ForwardBacked(m) && k in m && k.flags == F_OUT
    requires forall i :: 0 <= i < |steps| ==> WellFormed(steps[i]) && Spares(steps[i], k, m[k])
    requires NotTaken(m - {k}, steps, k) && Clean(m - {k}, steps, k)
    ensures Run(m - {k}, steps) == Run(m, steps) - {k}
    decreases |steps|
  {
    hide Apply, ForwardBacked, Spares, LeavesOrphan;
    if steps != [] {
      var s := steps[0];
      assert WellFormed(s) && Spares(s, k, m[k]);
      StepForgets(m, k, s);
      StepSpares(m, s, k);
      StepKeepsForwardBacked(m, s);
      RunForgets(Apply(m, s), k, steps[1..]);
    }
  }

  ghost predicate PointsTo(m: Table, o: Tuple, k: Tuple) {
    o in m && m[o].addr == k.saddr && m[o].port == k.sport
  }

  /** The reverse key `o` could stand for flow `k`. */
  predicate CouldAnswer(o: Tuple, k: Tuple) {
    o.flags == F_IN && o.saddr == k.daddr && o.sport == k.dport && o.nexthdr == k.nexthdr
  }

  /** An orphan stays while its flow has no forward entry. */
  lemma OrphanStays(m: Table, s: Step, o: Tuple, k: Tuple)
    requires ForwardBacked(m) && WellFormed(s) && k !in m && k.flags == F_OUT
    requires CouldAnswer(o, k) && PointsTo(m, o, k)
    ensures PointsTo(Apply(m, s), o, k)
  {
    hide Allocate;
    if s.Out? {
      if s.t in m {
        assert HasReverse(m, s.t);
        var gone := if s.env.deleteReverseOk then {s.t, ReverseKey(s.t, m[s.t])} else {s.t};
        AllocateSpares(m - gone, s.t, s.target, s.env, o);
      } else {
        AllocateSpares(m, s.t, s.target, s.env, o);
      }
    }
  }

  lemma AllocatePoints(m: Table, t: Tuple, target: NatTarget, env: Env, o: Tuple, k: Tuple)
    requires t.flags == k.flags == F_OUT && t != k && CouldAnswer(o, k) && !PointsTo(m, o, k)
    ensures !PointsTo(Allocate(m, t, target, env).0, o, k)
  {
    hide Candidate;
  }

  /** Where the pair is whole, nobody makes another entry for the flow. */
  lemma NoOrphan(m: Table, s: Step, o: Tuple, k: Tuple)
    requires ForwardBacked(m) && WellFormed(s) && k in m && k.flags == F_OUT && Spares(s, k, m[k])
    requires CouldAnswer(o, k) && !PointsTo(m, o, k)
    ensures !PointsTo(Apply(m, s), o, k)
  {
    hide Allocate;
    if s.Out? {
      if s.t == k {
        OwnPacketIdle(m, k, s);
      } else if s.t in m {
        assert HasReverse(m, s.t);
        var gone := if s.env.deleteReverseOk then {s.t, ReverseKey(s.t, m[s.t])} else {s.t};
        AllocatePoints(m - gone, s.t, s.target, s.env, o, k);
      } else {
        AllocatePoints(m, s.t, s.target, s.env, o, k);
      }
    }
  }

  /** Once an orphan exists, the run with the loss and the one without never agree again. */
  lemma {:induction false} OrphanShows(m: Table, n: Table, k: Tuple, o: Tuple, steps: seq<Step>)
    requires ForwardBacked(m) && k in m && k.flags == F_OUT && ForwardBacked(n)
    requires forall i :: 0 <= i < |steps| ==> WellFormed(steps[i]) && Spares(steps[i], k, m[k])
    requires NotTaken(n, steps, k) && CouldAnswer(o, k) && PointsTo(n, o, k) && !PointsTo(m, o, k)
    ensures PointsTo(Run(n, steps), o, k) && !PointsTo(Run(m, steps), o, k)
    decreases |steps|
  {
    hide Apply, ForwardBacked, Spares, CouldAnswer, PointsTo;
    if steps != [] {
      var s := steps[0];
      assert WellFormed(s) && Spares(s, k, m[k]);
      OrphanStays(n, s, o, k);
      NoOrphan(m, s, o, k);
      StepSpares(m, s, k);
      StepKeepsForwardBacked(m, s);
      StepKeepsForwardBacked(n, s);
      OrphanShows(Apply(m, s), Apply(n, s), k, o, steps[1..]);
    }
  }

  lemma FirstOrphan(m: Table, k: Tuple, s: Step) returns (o: Tuple)
    requires ForwardBacked(m) && k in m && k.flags == F_OUT && Spares(s, k, m[k])
    requires LeavesOrphan(m - {k}, s, k) && k !in Apply(m - {k}, s)
    ensures CouldAnswer(o, k) && PointsTo(Apply(m - {k}, s), o, k) && !PointsTo(Apply(m, s), o, k)
  {
    hide Candidate, Apply;
    OwnPacket(m - {k}, k, s);
    OwnPacketIdle(m, k, s);
    o := ReverseKey(k, Candidate(k, s.target, s.env, FirstFree(m - {k}, k, s.target, s.env, 0).value));
  }

  lemma {:induction false} OrphanIn(m: Table, k: Tuple, steps: seq<Step>) returns (o: Tuple)
    requires ForwardBacked(m) && k in m && k.flags == F_OUT
    requires forall i :: 0 <= i < |steps| ==> WellFormed(steps[i]) && Spares(steps[i], k, m[k])
    requires NotTaken(m - {k}, steps, k) && !Clean(m - {k}, steps, k)
    ensures o.flags == F_IN && PointsTo(Run(m - {k}, steps), o, k) && !PointsTo(Run(m, steps), o, k)
    decreases |steps|
  {
    hide Apply, ForwardBacked, Spares, LeavesOrphan, PointsTo;
    var s := steps[0];
    assert WellFormed(s) && Spares(s, k, m[k]);
    StepSpares(m, s, k);
    StepKeepsForwardBacked(m, s);
    if LeavesOrphan(m - {k}, s, k) {
      o := FirstOrphan(m, k, s);
      EvictForwardKeeps(m, k);
      StepKeepsForwardBacked(m - {k}, s);
      OrphanShows(Apply(m, s), Apply(m - {k}, s), k, o, steps[1..]);
    } else {
      StepForgets(m, k, s);
      o := OrphanIn(Apply(m, s), k, steps[1..]);
    }
  }

  /** If the forward half of a pair is lost and its key not taken meanwhile, the next reply restores exactly the
      table that would have been without the loss, unless the flow's own failures left an orphan: iff. */
  lemma HealForward(m: Table, k: Tuple, steps: seq<Step>, env: Env)
    requires ForwardBacked(m) && k in m && k.flags == F_OUT
    requires forall i :: 0 <= i < |steps| ==> WellFormed(steps[i]) && Spares(steps[i], k, m[k])
    requires NotTaken(m - {k}, steps, k)
    requires env.mapFound && env.ctOk && env.restoreOk
    ensures var rkey := ReverseKey(k, m[k]);
            var (m', r) := Incoming(Run(m - {k}, steps), rkey, env);
            && rkey in m && r == Ok(m[rkey]) && k in m' && m'[k] == m[k].(created := env.now)
            && (Untimed(m') == Untimed(Run(m, steps)) <==> Clean(m - {k}, steps, k))
  {
    hide Run, NotTaken, Clean, ForwardBacked;
    var rkey := ReverseKey(k, m[k]);
    TranslationIsStable(m, steps, k);
    LostReplyEntry(m, k, steps);
    var n, lost := Run(m, steps), Run(m - {k}, steps);
    var m' := Incoming(lost, rkey, env).0;
    assert m' == lost[k := m[k].(created := env.now)];
    if Clean(m - {k}, steps, k) {
      RunForgets(m, k, steps);
      assert Untimed(m') == Untimed(n);
    } else {
      var o := OrphanIn(m, k, steps);
      assert o in Untimed(m') && (o in Untimed(n) ==> Untimed(n)[o] != Untimed(m')[o]);
    }
  }

  /** The reverse entry of the pair is still there, and the forward one is not. */
  lemma LostReplyEntry(m: Table, k: Tuple, steps: seq<Step>)
    requires ForwardBacked(m) && k in m && k.flags == F_OUT
    requires forall i :: 0 <= i < |steps| ==> WellFormed(steps[i]) && Spares(steps[i], k, m[k])
    requires NotTaken(m - {k}, steps, k)
    ensures var rkey := ReverseKey(k, m[k]); var lost := Run(m - {k}, steps);
            k !in lost && HasReverse(m, k) && rkey in lost && lost[rkey] == m[rkey]
  {
    hide Run;
    assert HasReverse(m, k);
    EvictForwardKeeps(m, k);
    forall i | 0 <= i < |steps| ensures SparesReplies(steps[i], k, m[k]) { assert Spares(steps[i], k, m[k]); }
    ReplyEntryIsStable(m - {k}, steps, k, m[k]);
    NotTakenLast(m - {k}, steps, k);
  }

  lemma {:induction false} NotTakenLast(m: Table, steps: seq<Step>, key: Tuple)
    requires NotTaken(m, steps, key)
    ensures key !in Run(m, steps)
    decreases |steps|
  {
    hide Apply;
    if steps != [] { NotTakenLast(Apply(m, steps[0]), steps[1..], key); }
  }

  // ---------------------------------------------------------------- when a translation is shared

  /** Two flows to one peer carry the same translated address and port. */
  ghost predicate Share(m: Table, a: Tuple, b: Tuple) {
    && a in m && b in m && a != b && a.flags == b.flags == F_OUT
    && ReverseKey(a, m[a]) == ReverseKey(b, m[b])
  }

  /** Losing the reverse entry of a flow is not enough: in every run, as long as nobody takes the freed key, no
      other flow comes to share the translation. */
  lemma UniqueWhileFree(m: Table, a: Tuple, steps: seq<Step>, b: Tuple)
    requires ForwardBacked(m) && a in m && a.flags == F_OUT
    requires forall i :: 0 <= i < |steps| ==> WellFormed(steps[i]) && Spares(steps[i], a, m[a])
    requires NotTaken(m - {ReverseKey(a, m[a])}, steps, ReverseKey(a, m[a]))
    ensures !Share(Run(m - {ReverseKey(a, m[a])}, steps), a, b)
  {
    hide Run, NotTaken, ForwardBacked;
    RunLost(m, a, steps);
    RunKeepsForwardBacked(m, steps);
    if Share(Run(m - {ReverseKey(a, m[a])}, steps), a, b) { ReverseKeyOwner(Run(m, steps), a, b); }
  }

  /** The table a packet of `b` allocates in, if it allocates: the flow is unknown, or known with another target. */
  function Vacated(m: Table, b: Tuple, target: NatTarget, env: Env): Option<Table> {
    if !env.mapFound || (target.needsCt && !env.ctOk) then None
    else if b !in m then Some(m)
    else if (target.addr == m[b].addr && target.needsCt == m[b].needsCt) || !env.deleteForwardOk then None
    else Some(if env.deleteReverseOk then m - {b, ReverseKey(b, m[b])} else m - {b})
  }

  /** The packet of `b` allocates, its first free probe is `key`, and the forward insertion succeeds. */
  ghost predicate Takes(m: Table, b: Tuple, target: NatTarget, env: Env, key: Tuple) {
    var rest := Vacated(m, b, target, env);
    && rest.Some? && env.forwardOk
    && var i := FirstFree(rest.value, b, target, env, 0);
    i.Some? && ReverseKey(b, Candidate(b, target, env, i.value)) == key
  }

  lemma VacatedMeaning(m: Table, b: Tuple, target: NatTarget, env: Env)
    ensures var rest := Vacated(m, b, target, env); var m' := Outgoing(m, b, target, env).0;
            if rest.Some? then b !in rest.value && m' == Allocate(rest.value, b, target, env).0
            else (b in m' <==> b in m) && (b in m ==> m'[b] == m[b])
  {
    hide Allocate;
  }

  lemma AllocateTakes(m: Table, b: Tuple, target: NatTarget, env: Env, key: Tuple)
    requires b !in m && b.flags == F_OUT
    ensures var m' := Allocate(m, b, target, env).0; var i := FirstFree(m, b, target, env, 0);
            b in m' && ReverseKey(b, m'[b]) == key <==>
              env.forwardOk && i.Some? && ReverseKey(b, Candidate(b, target, env, i.value)) == key
  {
    hide Candidate;
  }

  /** When exactly a packet of another flow leads to a shared translation, after the reverse entry of `a` was
      lost: iff it takes the freed key. */
  lemma SharesIffTakes(m: Table, a: Tuple, b: Tuple, target: NatTarget, env: Env)
    requires ForwardBacked(m) && a in m && a != b && a.flags == b.flags == F_OUT
    ensures var rkey := ReverseKey(a, m[a]);
            Share(Outgoing(m - {rkey}, b, target, env).0, a, b) <==> Takes(m - {rkey}, b, target, env, rkey)
  {
    hide Outgoing, Allocate, Candidate;
    var rkey := ReverseKey(a, m[a]);
    var lost := m - {rkey};
    var rest := Vacated(lost, b, target, env);
    VacatedMeaning(lost, b, target, env);
    if rest.Some? {
      AllocateTakes(rest.value, b, target, env, rkey);
      AllocateSpares(rest.value, b, target, env, a);
    } else if b in m && ReverseKey(b, m[b]) == rkey {
      ReverseKeyOwner(m, a, b);
    } else {
      OtherKept(lost, a, b, target, env);
    }
  }

  lemma OtherKept(m: Table, a: Tuple, b: Tuple, target: NatTarget, env: Env)
    requires a in m && a != b && a.flags == b.flags == F_OUT && Vacated(m, b, target, env).None?
    ensures var m' := Outgoing(m, b, target, env).0; a in m' && m'[a] == m[a]
  {
    hide Allocate;
  }

  // ---------------------------------------------------------------- the two failures, once each

  const CLIENT_A := Tuple(0x0808_0808, 0x0A00_0001, 53, 40000, IPPROTO_UDP, F_OUT)
  const CLIENT_B := CLIENT_A.(saddr := 0x0A00_0002)
  const MAPPED := NatEntry(0, false, 0xC0A8_0001, 40000)
  const ONE_FLOW: Table := map[CLIENT_A := MAPPED,
                               ReverseKey(CLIENT_A, MAPPED) := NatEntry(0, false, 0x0A00_0001, 40000)]
  const TARGET := NatTarget(0xC0A8_0001, 32768, 65535, false, false, false)
  const ALL_WELL := Env(0, 0, 0, true, true, {}, true, true, true, true, true)

  /** Two clients use port 40000 towards one resolver. After the first one's reverse entry is evicted, the second
      one gets its translation. */
  lemma SharingExample()
    ensures Paired(ONE_FLOW)
    ensures Share(Outgoing(ONE_FLOW - {ReverseKey(CLIENT_A, MAPPED)}, CLIENT_B, TARGET, ALL_WELL).0, CLIENT_A, CLIENT_B)
  {
    hide Outgoing;
    OneFlowPaired();
    var lost := ONE_FLOW - {ReverseKey(CLIENT_A, MAPPED)};
    assert Free(lost, CLIENT_B, TARGET, ALL_WELL, 0);
    assert FirstFree(lost, CLIENT_B, TARGET, ALL_WELL, 0) == Some(0);
    SharesIffTakes(ONE_FLOW, CLIENT_A, CLIENT_B, TARGET, ALL_WELL);
  }

  lemma OneFlowPaired()
    ensures Paired(ONE_FLOW)
  {
    assert HasReverse(ONE_FLOW, CLIENT_A) && HasForward(ONE_FLOW, ReverseKey(CLIENT_A, MAPPED));
  }

  /** The forward entry of the only flow is evicted; its next packet fails to store a new one and to roll back; the
      reply then restores the old forward entry, and the orphan stays in the table. */
  lemma OrphanExample()
    ensures var fails := ALL_WELL.(forwardOk := false, rollbackOk := false);
            var steps := [Out(CLIENT_A, TARGET, fails)];
            var m' := Incoming(Run(ONE_FLOW - {CLIENT_A}, steps), ReverseKey(CLIENT_A, MAPPED), ALL_WELL).0;
            Untimed(m') != Untimed(Run(ONE_FLOW, steps))
  {
    var fails := ALL_WELL.(forwardOk := false, rollbackOk := false);
    var s := Out(CLIENT_A, TARGET, fails);
    var lost := ONE_FLOW - {CLIENT_A};
    OneFlowPaired();
    RetryIsFree(lost, fails);
    assert [s][1..] == [];
    assert Run(lost, [s]) == Apply(lost, s);
    assert NotTaken(lost, [s], CLIENT_A);
    assert !Clean(lost, [s], CLIENT_A);
    HealForward(ONE_FLOW, CLIENT_A, [s], ALL_WELL);
  }

  /** Its own old key is in the way of the kept port, the next probe is free. */
  lemma RetryIsFree(m: Table, env: Env)
    requires m == ONE_FLOW - {CLIENT_A} && env == ALL_WELL.(forwardOk := false, rollbackOk := false)
    ensures FirstFree(m, CLIENT_A, TARGET, env, 0) == Some(1)
  {
    assert Probe(TARGET, 40000, env, 0) == 40000;
    assert Probe(TARGET, 40000, env, 1) == 32768;
    assert !Free(m, CLIENT_A, TARGET, env, 0) && Free(m, CLIENT_A, TARGET, env, 1);
    assert FirstFree(m, CLIENT_A, TARGET, env, 1) == Some(1);
  }
}
