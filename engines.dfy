/**
 * Rocket engines (rockets.py, class Engine and its five variants).
 *
 * An engine has an immutable specification and a small mutable state: whether
 * it is armed (`thrusting`), the fraction of its maximum thrust it has reached
 * (`ratio`, current_thrust_ratio) and the direction of its thrust (`angle`,
 * current_thrust_angle).  The state transitions are pure functions on
 * `EngineState`; the class `Engine` updates its fields in place and each of its
 * methods is proved to perform the corresponding transition.
 */
module Engines {
  import opened Wrappers
  import opened RealMath
  import opened Physics

  /** The five engine variants, in the order of the engine code "BPGUD". */
  datatype EngineKind = Bully | Patient | Greedy | UpSteering | DownSteering

  /**
   * The static description of an engine.  `kind` is the variant the engine was
   * built as, `None` for a plain Engine built from explicit parameters.
   */
  datatype EngineSpec = EngineSpec(
    kind: Option<EngineKind>,
    name: string,
    mass: real,
    maximumThrust: real,
    timeToMaxThrust: real,
    efficiency: real,
    angleVariance: real,
    positionOnFuselage: real)

  /** The parameters a plain Engine gets by default: name "Engine", 100 kg, 100 N, 1 s, efficiency 1, variance 1, at the rear. */
  const DefaultSpec: EngineSpec := EngineSpec(None, "Engine", 100.0, 100.0, 1.0, 1.0, 1.0, 0.0)

  /** The class name of each variant, which is also the name used to request it. */
  function KindName(k: EngineKind): string {
    match k
    case Bully => "BullyEngine"
    case Patient => "PatientEngine"
    case Greedy => "GreedyEngine"
    case UpSteering => "UpSteeringEngine"
    case DownSteering => "DownSteeringEngine"
  }

  /** The constant table of the five variants. */
  function KindSpec(k: EngineKind): (s: EngineSpec)
    ensures s.kind == Some(k) && s.name == KindName(k)
    ensures WellFormed(s)
  {
    match k
    case Greedy => EngineSpec(Some(Greedy), "GreedyEngine", 125.0, 40000.0, 1.0, 0.4, 0.4, 0.0)
    case Patient => EngineSpec(Some(Patient), "PatientEngine", 250.0, 65000.0, 6.0, 0.99, 0.15, 0.0)
    case Bully => EngineSpec(Some(Bully), "BullyEngine", 400.0, 120000.0, 3.0, 0.65, 1.0, 0.0)
    case UpSteering => EngineSpec(Some(UpSteering), "UpSteeringEngine", 80.0, 12000.0, 0.4, 0.9, 0.1, 0.9)
    case DownSteering => EngineSpec(Some(DownSteering), "DownSteeringEngine", 80.0, 12000.0, 0.4, 0.9, 0.1, 0.9)
  }

  /** The thrust angle a freshly built variant starts with: the steering engines point 45 degrees off axis. */
  function InitialAngle(k: EngineKind): (a: real)
    ensures k == UpSteering ==> a == PI / 4.0
    ensures k == DownSteering ==> a == -PI / 4.0
    ensures k != UpSteering && k != DownSteering ==> a == 0.0
  {
    match k
    case UpSteering => PI / 4.0
    case DownSteering => -PI / 4.0
    case _ => 0.0
  }

  /**
   * What the simulation needs of a specification: a positive ramp time and
   * efficiency (both are divisors), non-negative mass and thrust, and a mount
   * point on the fuselage.
   */
  predicate WellFormed(s: EngineSpec) {
    && s.mass >= 0.0
    && s.maximumThrust >= 0.0
    && s.timeToMaxThrust > 0.0
    && s.efficiency > 0.0
    && 0.0 <= s.positionOnFuselage <= 1.0
  }

  datatype EngineState = EngineState(thrusting: bool, ratio: real, angle: real)

  predicate InRange(r: real) { 0.0 <= r <= 1.0 }

  /** The clamp `thrust()` applies to the ratio. */
  function Clamp(r: real): (c: real)
    ensures InRange(c)
    ensures InRange(r) ==> c == r
    ensures r < 0.0 ==> c == 0.0
    ensures r > 1.0 ==> c == 1.0
  {
    if r < 0.0 then 0.0 else if r > 1.0 then 1.0 else r
  }

  /** The state after `thrust()`: armed, with the ratio clamped into [0,1]. */
  function Thrusted(s: EngineState): (t: EngineState)
    ensures t.thrusting && InRange(t.ratio) && t.angle == s.angle
    ensures InRange(s.ratio) ==> t.ratio == s.ratio
  {
    EngineState(true, Clamp(s.ratio), s.angle)
  }

  /** The force magnitude of an engine in state `s`. */
  function Force(spec: EngineSpec, s: EngineState): real {
    spec.maximumThrust * s.ratio
  }

  /** The state after `kill()`: disarmed, ratio 0. */
  function Killed(s: EngineState): (t: EngineState)
    ensures !t.thrusting && t.ratio == 0.0 && t.angle == s.angle
  {
    EngineState(false, 0.0, s.angle)
  }

  /** Increase of the ratio in one timestep. */
  function RampPerStep(spec: EngineSpec): (d: real)
    requires WellFormed(spec)
    ensures d > 0.0
  {
    TIMESTEP / spec.timeToMaxThrust
  }

  /**
   * The state after `step()` with `jitter` as the Gaussian sample added to the
   * thrust angle: nothing happens to a disarmed engine; an armed one ramps its
   * ratio towards 1 (a ratio already above 1 is left alone) and drifts its angle.
   */
  function Stepped(spec: EngineSpec, s: EngineState, jitter: real): (t: EngineState)
    requires WellFormed(spec)
    ensures t.thrusting == s.thrusting
    ensures !s.thrusting ==> t == s
    ensures s.thrusting ==> t.angle == s.angle + jitter
    ensures s.ratio <= t.ratio <= Max(s.ratio, 1.0)
    ensures t.ratio <= s.ratio + RampPerStep(spec)
    ensures s.thrusting && s.ratio <= 1.0 ==> t.ratio == Min(s.ratio + RampPerStep(spec), 1.0)
    ensures InRange(s.ratio) ==> InRange(t.ratio)
  {
    if !s.thrusting then s
    else
      var r := if s.ratio <= 1.0 then Min(s.ratio + RampPerStep(spec), 1.0) else s.ratio;
      EngineState(true, r, s.angle + jitter)
  }

  /** `consume_fuel()` and `thrust_components()` both call `thrust()` on an armed engine. */
  function Refreshed(s: EngineState): (t: EngineState)
    ensures t.thrusting == s.thrusting && t.angle == s.angle
    ensures s.thrusting ==> InRange(t.ratio)
    ensures InRange(s.ratio) ==> t == s
  {
    if s.thrusting then Thrusted(s) else s
  }

  /** The most fuel an engine can burn in one timestep. */
  function MaxDraw(spec: EngineSpec): real
    requires WellFormed(spec)
  {
    spec.maximumThrust * TIMESTEP / (FUEL_FORCE_PER_UNIT_MASS_FLOW_RATE * spec.efficiency)
  }

  /**
   * The fuel mass `consume_fuel()` reports: zero when disarmed, otherwise the
   * mass whose flow, at 250 N*s/kg scaled by the efficiency, yields the current
   * force over one timestep.
   */
  function FuelDraw(spec: EngineSpec, s: EngineState): (f: real)
    requires WellFormed(spec)
    ensures 0.0 <= f <= MaxDraw(spec)
    ensures !s.thrusting ==> f == 0.0
    ensures s.thrusting ==>
      f * (FUEL_FORCE_PER_UNIT_MASS_FLOW_RATE * spec.efficiency) == Force(spec, Thrusted(s)) * TIMESTEP
  {
    if !s.thrusting then 0.0
    else
      var ts := Thrusted(s);
      var force := Force(spec, ts);
      var k := FUEL_FORCE_PER_UNIT_MASS_FLOW_RATE * spec.efficiency;
      assert 0.0 <= force <= spec.maximumThrust by {
        Weighted(ts.ratio, spec.maximumThrust);
        assert force == spec.maximumThrust * ts.ratio;
      }
      assert 0.0 <= force * TIMESTEP <= spec.maximumThrust * TIMESTEP by {
        ScaleUp(force, spec.maximumThrust, TIMESTEP);
      }
      assert k > 0.0 by {
        PositiveProduct(FUEL_FORCE_PER_UNIT_MASS_FLOW_RATE, spec.efficiency);
      }
      DivideMonotone(force * TIMESTEP, spec.maximumThrust * TIMESTEP, k);
      force * TIMESTEP / k
  }

  lemma DivideMonotone(x: real, y: real, k: real)
    requires 0.0 <= x <= y && k > 0.0
    ensures 0.0 <= x / k <= y / k
  {
  }

  /**
   * `thrust_components()`: the force decomposed along the thrust angle, in the
   * rocket's own frame; (0, 0) when disarmed.
   */
  function Components(spec: EngineSpec, s: EngineState, m: Elementary): (xy: (real, real))
    ensures !s.thrusting ==> xy == (0.0, 0.0)
  {
    if !s.thrusting then (0.0, 0.0)
    else
      var force := Force(spec, Thrusted(s));
      (force * m.cos(s.angle), force * m.sin(s.angle))
  }

  /** Both components together carry exactly the engine's force. */
  lemma ComponentsCarryTheForce(spec: EngineSpec, s: EngineState, m: Elementary)
    requires Pythagorean(m) && s.thrusting
    ensures var (x, y) := Components(spec, s, m);
      x * x + y * y == Force(spec, Thrusted(s)) * Force(spec, Thrusted(s))
  {
    var f := Force(spec, Thrusted(s));
    var c, n := m.cos(s.angle), m.sin(s.angle);
    assert n * n + c * c == 1.0;
    calc {
      (f * c) * (f * c) + (f * n) * (f * n);
      f * f * (c * c + n * n);
      f * f;
    }
  }

  /** `kill()` is idempotent. */
  lemma KillIsIdempotent(s: EngineState)
    ensures Killed(Killed(s)) == Killed(s)
  {
  }

  /** `thrust()` is idempotent: the second call in one step changes nothing. */
  lemma ThrustIsIdempotent(s: EngineState)
    ensures Thrusted(Thrusted(s)) == Thrusted(s)
  {
  }

  /** `n` consecutive steps of an armed engine with the given jitters. */
  function SteppedTimes(spec: EngineSpec, s: EngineState, jitters: seq<real>): EngineState
    requires WellFormed(spec)
    decreases |jitters|
  {
    if jitters == [] then s
    else Stepped(spec, SteppedTimes(spec, s, jitters[..|jitters| - 1]), jitters[|jitters| - 1])
  }

  /** The ratio after `n` steps of ramping by `d` from `r`, capped at 1 after each step. */
  function CappedRamp(r: real, n: nat, d: real): real {
    if n == 0 then r else Min(CappedRamp(r, n - 1, d) + d, 1.0)
  }

  /** Consecutive steps of an armed engine ramp its ratio by `RampPerStep` each, capped at 1. */
  lemma {:induction false} SteppedTimesRamp(spec: EngineSpec, s: EngineState, jitters: seq<real>)
    requires WellFormed(spec) && s.thrusting && InRange(s.ratio)
    ensures SteppedTimes(spec, s, jitters).thrusting
    ensures SteppedTimes(spec, s, jitters).ratio == CappedRamp(s.ratio, |jitters|, RampPerStep(spec))
    ensures InRange(SteppedTimes(spec, s, jitters).ratio)
    decreases |jitters|
  {
    if jitters != [] {
      var n := |jitters| - 1;
      SteppedTimesRamp(spec, s, jitters[..n]);
    }
  }

  /** The capped ramp is linear until it saturates: min(r + n * d, 1). */
  lemma {:induction false} CappedRampIsLinear(r: real, n: nat, d: real)
    requires r <= 1.0 && d >= 0.0
    ensures CappedRamp(r, n, d) == Min(r + n as real * d, 1.0)
  {
    if n > 0 {
      CappedRampIsLinear(r, n - 1, d);
      var k := (n - 1) as real * d;
      OneMoreStep(n, n - 1, d);
      SaturatingSum(r, k, d, n as real * d, CappedRamp(r, n - 1, d), CappedRamp(r, n, d));
    }
  }

  /**
   * The ramp is linear and saturates: starting armed from a ratio in [0,1],
   * after n steps the ratio is min(ratio + n * TIMESTEP / time_to_max_thrust, 1).
   * A Patient engine (6 s) therefore reaches full thrust after 600 steps.
   */
  lemma {:induction false} LinearRamp(spec: EngineSpec, s: EngineState, jitters: seq<real>)
    requires WellFormed(spec) && s.thrusting && InRange(s.ratio)
    ensures SteppedTimes(spec, s, jitters).thrusting
    ensures SteppedTimes(spec, s, jitters).ratio == Min(s.ratio + |jitters| as real * RampPerStep(spec), 1.0)
  {
    SteppedTimesRamp(spec, s, jitters);
    CappedRampIsLinear(s.ratio, |jitters|, RampPerStep(spec));
  }

  /** Adding `d` to a sum capped at 1 is adding it before the cap. */
  lemma SaturatingSum(x: real, k: real, d: real, total: real, capped: real, next: real)
    requires d >= 0.0 && total == k + d
    requires capped == Min(x + k, 1.0) && next == Min(capped + d, 1.0)
    ensures next == Min(x + total, 1.0)
  {
  }

  lemma OneMoreStep(m: nat, n: nat, d: real)
    requires m == n + 1
    ensures m as real * d == n as real * d + d
  {
  }

  /** An engine of the simulation: static specification plus the mutable state. */
  class Engine {
    const spec: EngineSpec
    var thrusting: bool
    var ratio: real
    var angle: real

    /** The abstract value of the engine's mutable state. */
    function State(): EngineState
      reads this
    {
      EngineState(thrusting, ratio, angle)
    }

    /** A plain Engine built from explicit parameters and initial state. */
    constructor (spec: EngineSpec, thrusting: bool, ratio: real, angle: real)
      requires WellFormed(spec) && spec.kind == None
      ensures this.spec == spec
      ensures State() == EngineState(thrusting, ratio, angle)
    {
      this.spec := spec;
      this.thrusting := thrusting;
      this.ratio := ratio;
      this.angle := angle;
    }

    /** `Engine()` with every default argument: idle, at ratio 0 and angle 0. */
    constructor OfDefaults()
      ensures spec == DefaultSpec && WellFormed(spec)
      ensures State() == EngineState(false, 0.0, 0.0)
    {
      spec := DefaultSpec;
      thrusting := false;
      ratio := 0.0;
      angle := 0.0;
    }

    /** One of the five variants, disarmed, at ratio 0 and its initial angle. */
    constructor OfKind(k: EngineKind)
      ensures spec == KindSpec(k)
      ensures State() == EngineState(false, 0.0, InitialAngle(k))
    {
      spec := KindSpec(k);
      thrusting := false;
      ratio := 0.0;
      angle := InitialAngle(k);
    }

    /** `thrust()`: arm, clamp the ratio into [0,1] and return the force. */
    method Thrust() returns (force: real)
      modifies this
      ensures State() == Thrusted(old(State()))
      ensures force == Force(spec, State())
    {
      thrusting := true;
      if ratio < 0.0 {
        ratio := 0.0;
      } else if ratio > 1.0 {
        ratio := 1.0;
      }
      force := spec.maximumThrust * ratio;
    }

    /** `kill()`: disarm and reset the ratio. */
    method Kill()
      modifies this
      ensures State() == Killed(old(State()))
    {
      thrusting := false;
      ratio := 0.0;
    }

    /** `step()`: ramp an armed engine and add the angle sample `jitter`. */
    method Step(jitter: real)
      requires WellFormed(spec)
      modifies this
      ensures State() == Stepped(spec, old(State()), jitter)
    {
      if !thrusting {
        return;
      }
      if ratio <= 1.0 {
        ratio := ratio + TIMESTEP / spec.timeToMaxThrust;
        ratio := Min(ratio, 1.0);
      }
      angle := angle + jitter;
    }

    /** `consume_fuel()`: the fuel burnt this timestep at the current ratio. */
    method ConsumeFuel() returns (fuel: real)
      requires WellFormed(spec)
      modifies this
      ensures fuel == FuelDraw(spec, old(State()))
      ensures State() == Refreshed(old(State()))
    {
      if !thrusting {
        return 0.0;
      }
      var force := Thrust();
      fuel := force * TIMESTEP / (FUEL_FORCE_PER_UNIT_MASS_FLOW_RATE * spec.efficiency);
    }

    /** `thrust_components()`: the force along and across the rocket axis. */
    method ThrustComponents(m: Elementary) returns (x: real, y: real)
      modifies this
      ensures (x, y) == Components(spec, old(State()), m)
      ensures State() == Refreshed(old(State()))
    {
      if !thrusting {
        return 0.0, 0.0;
      }
      ghost var before := State();
      var force := Thrust();
      x, y := force * m.cos(angle), force * m.sin(angle);
      assert Components(spec, before, m).0 == x && Components(spec, before, m).1 == y;
    }
  }
}
