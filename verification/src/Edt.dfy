/** Earliest-departure-time scheduling of a rate-limited aggregate. */
module Edt {
  import opened Net
  import Arith

  const NSEC_PER_SEC: nat := 1_000_000_000

  /** struct edt_info */
  datatype Info = Info(bps: U64, tLast: U64, horizon: U64, prio: U32)

  /** A packet when it is scheduled: the clock, its own timestamp and its length on the wire. */
  datatype Arrival = Arrival(now: U64, tstamp: U64, wireLen: U32)

  datatype Outcome = Pass(departure: U64, tstamp: U64, priority: Option<U32>) | Drop

  function Later(a: U64, b: U64): U64 { if a < b then b else a }

  /** Serialisation delay; the product fits 64 bits because the length has 32. */
  function Delay(bps: U64, wireLen: U32): U64
    requires bps > 0
  {
    DelayFits(bps, wireLen);
    wireLen * NSEC_PER_SEC / bps
  }

  lemma DelayFits(bps: U64, wireLen: U32)
    requires bps > 0
    ensures 0 <= wireLen * NSEC_PER_SEC / bps <= wireLen * NSEC_PER_SEC < U64_SIZE
  {
    var x: nat := wireLen * NSEC_PER_SEC;
    var q: nat := x / bps;
    assert q * bps <= x;
    Arith.MulLe(q, 1, q, bps);
  }

  function Priority(s: Info): Option<U32> { if s.prio > 0 then Some(s.prio - 1) else None }

  /** edt_sched_departure, for an aggregate that has an entry. */
  function Schedule(s: Info, a: Arrival): (Info, Outcome) {
    var t := Later(a.tstamp, a.now);
    if s.bps == 0 then (s, Pass(t, a.tstamp, Priority(s)))
    else
      var next := (s.tLast + Delay(s.bps, a.wireLen)) % U64_SIZE;
      if next <= t then (s.(tLast := t), Pass(t, a.tstamp, None))
      else if next - a.now >= s.horizon then (s, Drop)
      else (s.(tLast := next), Pass(next, next, Priority(s)))
  }

  /** The map value, updated in place. */
  class Throttle {
    var bps: U64
    var tLast: U64
    var horizon: U64
    var prio: U32

    function State(): Info
      reads this
    {
      Info(bps, tLast, horizon, prio)
    }

    /** edt_sched_departure */
    method SchedDeparture(a: Arrival) returns (o: Outcome)
      modifies `tLast
      ensures (State(), o) == Schedule(old(State()), a)
    {
      hide Delay;
      var t := a.tstamp;
      if t < a.now { t := a.now; }
      if bps != 0 {
        var next := (tLast + Delay(bps, a.wireLen)) % U64_SIZE;
        if next <= t {
          tLast := t;
          return Pass(t, a.tstamp, None);
        }
        if next - a.now >= horizon { return Drop; }
        tLast := next;
        return Pass(next, next, if prio > 0 then Some(prio - 1) else None);
      }
      o := Pass(t, a.tstamp, if prio > 0 then Some(prio - 1) else None);
    }
  }

  // ---------------------------------------------------------------- runs

  /** Clocks and the horizon stay below 2^62 nanoseconds (146 years), so 64-bit sums do not wrap. */
  const LIMIT: nat := 0x4000_0000_0000_0000

  ghost predicate Sane(s: Info) {
    s.bps > 0 && s.horizon <= LIMIT && s.tLast < 2 * LIMIT
  }

  ghost predicate SaneArrival(a: Arrival) {
    a.now < LIMIT && a.tstamp < LIMIT
  }

  /** One packet of a throttled aggregate: what is accepted departs no earlier than its serialisation time after
      the packet before it, and the state remembers that departure; a delayed packet departs within the horizon; a
      drop changes nothing. */
  lemma ScheduleStep(s: Info, a: Arrival)
    requires Sane(s) && SaneArrival(a)
    ensures var (s', o) := Schedule(s, a);
            && Sane(s') && s' == s.(tLast := s'.tLast)
            && (o.Pass? ==>
                  && s'.tLast == o.departure && o.departure >= s.tLast + Delay(s.bps, a.wireLen)
                  && o.departure >= a.now && o.departure >= a.tstamp
                  && (o.departure > Later(a.tstamp, a.now) ==>
                      o.departure - a.now < s.horizon && o.tstamp == o.departure))
            && (o.Drop? ==> s' == s && s.tLast + Delay(s.bps, a.wireLen) >= a.now + s.horizon)
  {
    hide Delay;
    DelayBound(s.bps, a.wireLen);
  }

  lemma DelayBound(bps: U64, wireLen: U32)
    requires bps > 0
    ensures Delay(bps, wireLen) < LIMIT
  {
    DelayFits(bps, wireLen);
    assert wireLen * NSEC_PER_SEC < LIMIT;
  }

  function Run(s: Info, xs: seq<Arrival>): Info
    decreases |xs|
  {
    if xs == [] then s else Run(Schedule(s, xs[0]).0, xs[1..])
  }

  /** Number and bytes of the packets a run accepts. */
  function Accepted(s: Info, xs: seq<Arrival>): nat
    decreases |xs|
  {
    if xs == [] then 0
    else (if Schedule(s, xs[0]).1.Pass? then 1 else 0) + Accepted(Schedule(s, xs[0]).0, xs[1..])
  }

  function Bytes(s: Info, xs: seq<Arrival>): nat
    decreases |xs|
  {
    if xs == [] then 0
    else (if Schedule(s, xs[0]).1.Pass? then xs[0].wireLen else 0) + Bytes(Schedule(s, xs[0]).0, xs[1..])
  }

  lemma DelayCovers(bps: U64, wireLen: U32)
    requires bps > 0
    ensures wireLen * NSEC_PER_SEC < (Delay(bps, wireLen) + 1) * bps
  {
    var x, d := wireLen * NSEC_PER_SEC, Delay(bps, wireLen);
    assert x < d * bps + bps;
    assert (d + 1) * bps == d * bps + bps;
  }

  lemma Accumulate(bytes: nat, n: nat, gap: nat, len: nat, delay: nat, gap': nat, bps: nat)
    requires bytes * NSEC_PER_SEC + n <= (gap + n) * bps
    requires len * NSEC_PER_SEC < (delay + 1) * bps && gap + delay <= gap'
    ensures (len + bytes) * NSEC_PER_SEC + (n + 1) <= (gap' + (n + 1)) * bps
  {
    assert (gap + n) * bps + (delay + 1) * bps == (gap + delay + n + 1) * bps;
    assert (gap + delay + n + 1) * bps <= (gap' + n + 1) * bps by {
      assert (gap' - gap - delay) * bps >= 0;
    }
  }

  lemma Grow(bytes: nat, n: nat, gap: nat, gap': nat, bps: nat)
    requires bytes * NSEC_PER_SEC + n <= (gap + n) * bps && gap <= gap'
    ensures bytes * NSEC_PER_SEC + n <= (gap' + n) * bps
  {
    assert (gap' - gap) * bps >= 0;
  }

  /** The bandwidth bound, for every run and whatever the order of timestamps. Started in the state an accepted
      packet leaves behind, whose tLast is that packet's departure, it bounds the bytes accepted after it: times 1e9,
      they stay below (departure gap + one nanosecond per packet) times the rate. Departures never go backwards. */
  lemma {:induction false} BandwidthBound(s: Info, xs: seq<Arrival>)
    requires Sane(s) && forall i :: 0 <= i < |xs| ==> SaneArrival(xs[i])
    ensures Sane(Run(s, xs)) && s.tLast <= Run(s, xs).tLast && Run(s, xs).bps == s.bps
    ensures var gap, n := Run(s, xs).tLast - s.tLast, Accepted(s, xs);
            && Bytes(s, xs) * NSEC_PER_SEC + n <= (gap + n) * s.bps
            && (n > 0 ==> Bytes(s, xs) * NSEC_PER_SEC < (gap + n) * s.bps)
    decreases |xs|
  {
    hide Delay, Schedule;
    if xs == [] {
      assert Run(s, xs).tLast - s.tLast + Accepted(s, xs) == 0;
      assert 0 * s.bps == 0;
    } else {
      var a := xs[0];
      var (s1, o) := Schedule(s, a);
      assert SaneArrival(a);
      ScheduleStep(s, a);
      BandwidthBound(s1, xs[1..]);
      var gap1, gap := Run(s1, xs[1..]).tLast - s1.tLast, Run(s, xs).tLast - s.tLast;
      var n1, b1 := Accepted(s1, xs[1..]), Bytes(s1, xs[1..]);
      if o.Pass? {
        DelayCovers(s.bps, a.wireLen);
        Accumulate(b1, n1, gap1, a.wireLen, Delay(s.bps, a.wireLen), gap, s.bps);
      } else {
        Grow(b1, n1, gap1, gap, s.bps);
      }
    }
  }

  // ---------------------------------------------------------------- no packet waits for longer than needed

  /** The delay is the time the packet takes at the rate, rounded down to the nanosecond. */
  lemma DelayExact(bps: U64, wireLen: U32)
    requires bps > 0
    ensures Delay(bps, wireLen) * bps <= wireLen * NSEC_PER_SEC < (Delay(bps, wireLen) + 1) * bps
  {
    DelayCovers(bps, wireLen);
    Arith.FloorMul(wireLen * NSEC_PER_SEC, bps);
  }

  /** Exactly what happens to a packet of a limited aggregate: it departs at the latest of the clock, its own timestamp
      and its turn; it is dropped iff its turn lies beyond the horizon and has not come; only a delayed packet gets a
      new timestamp and the aggregate's priority. */
  lemma DepartsAsSoonAsPossible(s: Info, a: Arrival)
    requires Sane(s) && SaneArrival(a)
    ensures var o := Schedule(s, a).1; var turn := s.tLast + Delay(s.bps, a.wireLen);
            var ready := if a.tstamp > a.now then a.tstamp else a.now;
            && (o.Drop? <==> turn > ready && turn - a.now >= s.horizon)
            && (o.Pass? ==>
                  && o.departure == (if turn > ready then turn else ready)
                  && o.tstamp == (if turn > ready then turn else a.tstamp)
                  && o.priority == (if turn > ready && s.prio > 0 then Some(s.prio - 1) else None))
  {
    hide Delay;
    DelayBound(s.bps, a.wireLen);
  }

  /** An aggregate without limit: nothing is delayed, dropped or remembered, and the priority is always set. */
  lemma UnlimitedPasses(s: Info, a: Arrival)
    requires s.bps == 0
    ensures Schedule(s, a) == (s, Pass(if a.tstamp > a.now then a.tstamp else a.now, a.tstamp,
                                       if s.prio > 0 then Some(s.prio - 1) else None))
  {
  }
}
