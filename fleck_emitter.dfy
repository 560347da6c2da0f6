/**
 * CompThrownFleckEmitter: a component that throws bursts of flecks from its
 * building while the building is switched on, either every
 * `emissionInterval + 1` ticks or, when the interval is -1, once ever.
 */
module ThrownFleckEmitter {
  import opened Wrappers

  /**
   * What the parent building and its sibling components report about being
   * on. A component the building does not have is None.
   */
  datatype Parent = Parent(
    spawned: bool,
    powerOn: Option<bool>,
    countdownTicksLeft: Option<int>,
    instrumentBeingPlayed: Option<bool>,
    initiated: Option<bool>,
    loudspeakerActive: Option<bool>,
    hacked: Option<bool>,
    crateHasContents: Option<bool>)

  /** The IsOn property: every gate the building has must be open. */
  function IsOn(p: Parent): (r: bool)
    ensures r ==> p.spawned
    ensures r ==> p.powerOn != Some(false) && p.hacked != Some(true) && p.crateHasContents != Some(false)
    ensures r ==> (p.countdownTicksLeft.None? || p.countdownTicksLeft.value > 0)
                  && p.instrumentBeingPlayed != Some(false) && p.initiated != Some(false)
                  && p.loudspeakerActive != Some(false)
    ensures (p.spawned && p.powerOn != Some(false) && p.hacked != Some(true) && p.crateHasContents != Some(false)
             && (p.countdownTicksLeft.None? || p.countdownTicksLeft.value > 0)
             && p.instrumentBeingPlayed != Some(false) && p.initiated != Some(false)
             && p.loudspeakerActive != Some(false)) ==> r
  {
    if !p.spawned then false
    else if p.powerOn.Some? && !p.powerOn.value then false
    else if p.countdownTicksLeft.Some? && p.countdownTicksLeft.value <= 0 then false
    else if p.instrumentBeingPlayed.Some? && !p.instrumentBeingPlayed.value then false
    else if p.initiated.Some? && !p.initiated.value then false
    else if p.loudspeakerActive.Some? && !p.loudspeakerActive.value then false
    else if p.hacked.Some? && p.hacked.value then false
    else if p.crateHasContents.Some? && !p.crateHasContents.value then false
    else true
  }

  /** A spawned building without any gating component is always on. */
  lemma BareBuildingIsOn()
    ensures IsOn(Parent(true, None, None, None, None, None, None, None))
  {
  }

  /** The saved state of the component and the number of flecks it has thrown so far. */
  datatype State = State(emittedBefore: bool, ticksSinceLastEmitted: int, flecks: nat)

  /** One call of CompTick on the state, given whether the building is on. */
  function Tick(s: State, on: bool, interval: int, burstCount: int): (r: State)
  {
    var burst := if burstCount > 0 then burstCount else 0;
    if !on then s
    else if interval != -1 then
      if s.ticksSinceLastEmitted >= interval then State(s.emittedBefore, 0, s.flecks + burst)
      else State(s.emittedBefore, s.ticksSinceLastEmitted + 1, s.flecks)
    else if !s.emittedBefore then State(true, s.ticksSinceLastEmitted, s.flecks + burst)
    else s
  }

  /** n consecutive ticks during which the building stays on. */
  function RunOn(s: State, n: nat, interval: int, burstCount: int): (r: State)
    decreases n
  {
    if n == 0 then s else RunOn(Tick(s, true, interval, burstCount), n - 1, interval, burstCount)
  }

  /** A switched-off building changes nothing. */
  lemma OffTickChangesNothing(s: State, interval: int, burstCount: int)
    ensures Tick(s, false, interval, burstCount) == s
  {
  }

  /**
   * With a non-negative interval k, starting from a fresh counter, n ticks
   * throw a burst every k + 1 ticks: n / (k + 1) bursts in all, and the
   * counter holds the ticks since the last one.
   */
  lemma {:induction false} PeriodicEmission(s: State, n: nat, k: nat, burstCount: nat)
    requires 0 <= s.ticksSinceLastEmitted <= k
    ensures RunOn(s, n, k, burstCount).flecks
      == s.flecks + burstCount * ((s.ticksSinceLastEmitted + n) / (k + 1))
    ensures RunOn(s, n, k, burstCount).ticksSinceLastEmitted == (s.ticksSinceLastEmitted + n) % (k + 1)
    ensures RunOn(s, n, k, burstCount).emittedBefore == s.emittedBefore
    decreases n
  {
    if n > 0 {
      var t := s.ticksSinceLastEmitted;
      var s' := Tick(s, true, k, burstCount);
      PeriodicEmission(s', n - 1, k, burstCount);
      if t == k {
        assert s'.ticksSinceLastEmitted == 0 && s'.flecks == s.flecks + burstCount;
        DivModShift(n - 1, k + 1);
      } else {
        assert s'.ticksSinceLastEmitted == t + 1 && s'.flecks == s.flecks;
        assert t + 1 + (n - 1) == t + n;
      }
    }
  }

  lemma DivModShift(m: nat, d: nat)
    requires d > 0
    ensures (m + d) / d == m / d + 1 && (m + d) % d == m % d
  {
    var q, r := m / d, m % d;
    assert m == d * q + r;
    assert m + d == d * (q + 1) + r;
    DivModUnique(m + d, d, q + 1, r);
  }

  lemma DivModUnique(a: int, d: int, q: int, r: int)
    requires d > 0 && 0 <= r < d && a == d * q + r
    ensures a / d == q && a % d == r
  {
    var q', r' := a / d, a % d;
    assert a == d * q' + r';
    if q > q' {
      MulAtLeast(d, q - q');
      assert false;
    } else if q < q' {
      MulAtLeast(d, q' - q);
      assert false;
    }
  }

  lemma MulAtLeast(d: int, k: int)
    requires d > 0 && k >= 1
    ensures d * k >= d
  {
    assert d * k == d * (k - 1) + d;
    assert d * (k - 1) >= 0;
  }

  /** With the interval -1 the emitter throws exactly one burst, on its first tick on, and never again. */
  lemma {:induction false} OneShotEmission(s: State, n: nat, burstCount: nat)
    requires !s.emittedBefore && n >= 1
    ensures RunOn(s, n, -1, burstCount).flecks == s.flecks + burstCount
    ensures RunOn(s, n, -1, burstCount).emittedBefore
  {
    var s' := Tick(s, true, -1, burstCount);
    assert s'.emittedBefore && s'.flecks == s.flecks + burstCount;
    OneShotStays(s', n - 1, burstCount);
  }

  lemma {:induction false} OneShotStays(s: State, n: nat, burstCount: nat)
    requires s.emittedBefore
    ensures RunOn(s, n, -1, burstCount) == s
    decreases n
  {
    if n > 0 { OneShotStays(Tick(s, true, -1, burstCount), n - 1, burstCount); }
  }

  class CompThrownFleckEmitter {
    var emittedBefore: bool
    var ticksSinceLastEmitted: int
    /** The number of flecks created on the map by this component. */
    var flecksCreated: nat
    const emissionInterval: int
    const burstCount: int

    function Snapshot(): State
      reads this
    {
      State(emittedBefore, ticksSinceLastEmitted, flecksCreated)
    }

    constructor (interval: int, burst: int)
      ensures emissionInterval == interval && burstCount == burst
      ensures Snapshot() == State(false, 0, 0)
    {
      emissionInterval := interval;
      burstCount := burst;
      emittedBefore := false;
      ticksSinceLastEmitted := 0;
      flecksCreated := 0;
    }

    /** Emit: one fleck per count of the burst. */
    method Emit()
      modifies this`flecksCreated
      ensures flecksCreated == old(flecksCreated) + (if burstCount > 0 then burstCount else 0)
    {
      var i := 0;
      while i < burstCount
        invariant i <= burstCount || (burstCount < 0 && i == 0)
        invariant flecksCreated == old(flecksCreated) + i
      {
        flecksCreated := flecksCreated + 1;
        i := i + 1;
      }
    }

    method CompTick(parent: Parent)
      modifies this
      ensures Snapshot() == Tick(old(Snapshot()), IsOn(parent), emissionInterval, burstCount)
    {
      if !IsOn(parent) {
        return;
      }
      if emissionInterval != -1 {
        if ticksSinceLastEmitted >= emissionInterval {
          Emit();
          ticksSinceLastEmitted := 0;
        } else {
          ticksSinceLastEmitted := ticksSinceLastEmitted + 1;
        }
      } else if !emittedBefore {
        Emit();
        emittedBefore := true;
      }
    }
  }
}
