/**
 * The physics of one simulation step of a rocket (rockets.py, Rocket.get_mass,
 * get_center_of_mass, get_moment_of_inertia and step), as pure functions on
 * values.  `StepFlight` is the whole step; the lemmas below state what the
 * step guarantees.  Class `Rocket` (rockets.dfy) performs the same step in
 * place and is proved to agree with `StepFlight`.
 */
module Dynamics {
  import opened RealMath
  import opened Physics
  import opened Wrappers
  import opened Engines

  /** The parts of a rocket that never change: fuselage dimensions and the attached engines, in order. */
  datatype Airframe = Airframe(fuselageLength: real, fuselageMass: real, engines: seq<EngineSpec>)

  /** Position and velocity, linear and angular, in the global frame. */
  datatype Motion = Motion(
    positionX: real, positionY: real,
    velocityX: real, velocityY: real,
    angularPosition: real, angularVelocity: real)

  /** Everything a step changes: fuel, motion and the state of each engine (same order as the airframe's engines). */
  datatype Flight = Flight(fuelMass: real, motion: Motion, engines: seq<EngineState>)

  /** An airframe the step can be computed for: positive fuselage length and mass, sensible engines. */
  predicate Sound(a: Airframe) {
    && a.fuselageLength > 0.0
    && a.fuselageMass > 0.0
    && forall i :: 0 <= i < |a.engines| ==> WellFormed(a.engines[i])
  }

  /** A flight state that fits the airframe, with fuel that is not negative. */
  predicate Fits(a: Airframe, f: Flight) {
    |f.engines| == |a.engines| && f.fuelMass >= 0.0
  }

  // ---------------------------------------------------------------------------
  // Mass properties

  /** Sum of the engine masses. */
  function EngineMass(specs: seq<EngineSpec>): real
    decreases |specs|
  {
    if specs == [] then 0.0 else specs[0].mass + EngineMass(specs[1..])
  }

  /** Sum of position_on_fuselage * mass over the engines. */
  function EngineMoment(specs: seq<EngineSpec>): real
    decreases |specs|
  {
    if specs == [] then 0.0
    else specs[0].positionOnFuselage * specs[0].mass + EngineMoment(specs[1..])
  }

  /** Sum of mass * (distance from the centre of mass)^2 over the engines. */
  function EngineInertia(specs: seq<EngineSpec>, length: real, cm: real): real
    decreases |specs|
  {
    if specs == [] then 0.0
    else
      specs[0].mass * Square(length * specs[0].positionOnFuselage - cm) + EngineInertia(specs[1..], length, cm)
  }

  /** Engine masses are not negative, so neither is their sum. */
  lemma {:induction false} EngineMassIsNonNegative(specs: seq<EngineSpec>)
    requires forall i :: 0 <= i < |specs| ==> WellFormed(specs[i])
    ensures EngineMass(specs) >= 0.0
    decreases |specs|
  {
    if specs != [] {
      assert WellFormed(specs[0]);
      EngineMassIsNonNegative(specs[1..]);
    }
  }

  /** Mount points lie on the fuselage, so the engines' moment lies between 0 and their mass. */
  lemma {:induction false} EngineMomentWithinMass(specs: seq<EngineSpec>)
    requires forall i :: 0 <= i < |specs| ==> WellFormed(specs[i])
    ensures 0.0 <= EngineMoment(specs) <= EngineMass(specs)
    decreases |specs|
  {
    if specs != [] {
      var s := specs[0];
      assert WellFormed(s);
      EngineMomentWithinMass(specs[1..]);
      var w := s.positionOnFuselage * s.mass;
      assert 0.0 <= w <= s.mass by {
        Weighted(s.positionOnFuselage, s.mass);
      }
      assert EngineMoment(specs) == w + EngineMoment(specs[1..]);
      assert EngineMass(specs) == s.mass + EngineMass(specs[1..]);
    }
  }

  /** Point masses that are not negative contribute a moment of inertia that is not negative. */
  lemma {:induction false} EngineInertiaIsNonNegative(specs: seq<EngineSpec>, length: real, cm: real)
    requires forall i :: 0 <= i < |specs| ==> WellFormed(specs[i])
    ensures EngineInertia(specs, length, cm) >= 0.0
    decreases |specs|
  {
    if specs != [] {
      var s := specs[0];
      assert WellFormed(s);
      EngineInertiaIsNonNegative(specs[1..], length, cm);
      SquareWeight(s.mass, length * s.positionOnFuselage - cm);
      assert EngineInertia(specs, length, cm)
        == s.mass * Square(length * s.positionOnFuselage - cm) + EngineInertia(specs[1..], length, cm);
    }
  }

  lemma SquareWeight(m: real, arm: real)
    requires m >= 0.0
    ensures m * Square(arm) >= 0.0
  {
  }

  /** `get_mass()`: fuselage, remaining fuel and every engine. */
  function TotalMass(a: Airframe, fuel: real): (m: real)
    requires Sound(a)
    ensures fuel >= 0.0 ==> m >= a.fuselageMass + fuel > 0.0
  {
    EngineMassIsNonNegative(a.engines);
    a.fuselageMass + fuel + EngineMass(a.engines)
  }

  /**
   * `get_center_of_mass()`: distance from the rear end, with the fuselage and
   * fuel centred and each engine at its mount point.  It always lies on the fuselage.
   */
  function CenterOfMass(a: Airframe, fuel: real): (c: real)
    requires Sound(a) && fuel >= 0.0
    ensures 0.0 <= c <= a.fuselageLength
  {
    var body := a.fuselageMass + fuel;
    var numerator := body * 0.5 + EngineMoment(a.engines);
    var total := TotalMass(a, fuel);
    EngineMomentWithinMass(a.engines);
    assert 0.0 <= numerator <= total;
    FractionOfLength(numerator, total, a.fuselageLength);
    numerator * a.fuselageLength / total
  }

  lemma FractionOfLength(x: real, total: real, length: real)
    requires 0.0 <= x <= total && total > 0.0 && length > 0.0
    ensures 0.0 <= x * length / total <= length
  {
    ScaleUp(x, total, length);
    assert total * length == length * total;
    DivideMonotone(x * length, length * total, total);
    DivCancel(length, total);
  }

  lemma DivCancel(k: real, d: real)
    requires d > 0.0
    ensures k * d / d == k
  {
  }

  /**
   * `get_moment_of_inertia()`: a uniform rod for fuselage and fuel plus a point
   * mass per engine.  It is positive, at least the rod's own share.
   */
  function MomentOfInertia(a: Airframe, fuel: real): (j: real)
    requires Sound(a) && fuel >= 0.0
    ensures j > 0.0
  {
    var cm := CenterOfMass(a, fuel);
    EngineInertiaIsNonNegative(a.engines, a.fuselageLength, cm);
    RodInertia(a.fuselageMass + fuel, a.fuselageLength) + EngineInertia(a.engines, a.fuselageLength, cm)
  }

  /** Moment of inertia of a uniform rod about its centre. */
  function RodInertia(mass: real, length: real): (j: real)
    requires mass > 0.0 && length > 0.0
    ensures j > 0.0
  {
    1.0 / 12.0 * mass * Square(length)
  }

  // ---------------------------------------------------------------------------
  // Sequential fuel allocation

  /** What one engine asks of the step: fuel, rocket-frame force, and the lever arm of its lateral force. */
  datatype Demand = Demand(fuel: real, thrustX: real, thrustY: real, lever: real)

  /** Running sums of the allocation loop. */
  datatype Totals = Totals(consumed: real, thrustX: real, thrustY: real, torque: real)

  const NoTotals: Totals := Totals(0.0, 0.0, 0.0, 0.0)

  /**
   * One iteration of the allocation loop with budget `budget` (the fuel on
   * board): the engine is served in full if the budget covers it; otherwise,
   * if some budget is left, it contributes the fraction of its force that the
   * rest of the budget pays for and the budget is used up; otherwise nothing.
   */
  function AllocateOne(t: Totals, d: Demand, budget: real): (r: Totals)
    ensures t.consumed <= budget && d.fuel >= 0.0 ==> t.consumed <= r.consumed <= budget
    ensures t.consumed + d.fuel > budget && t.consumed <= budget ==> r.consumed == budget
  {
    if t.consumed + d.fuel <= budget then
      Totals(t.consumed + d.fuel, t.thrustX + d.thrustX, t.thrustY + d.thrustY, t.torque + d.lever * d.thrustY)
    else if t.consumed <= budget then
      var share := Share(t, d, budget);
      Totals(budget, t.thrustX + Product(d.thrustX, share), t.thrustY + Product(d.thrustY, share),
        t.torque + Product(d.lever * d.thrustY, share))
    else t
  }

  /** The fraction of an engine's force that the rest of the budget pays for. */
  function Share(t: Totals, d: Demand, budget: real): real
    requires d.fuel != 0.0
  {
    (budget - t.consumed) / d.fuel
  }

  /** The allocation loop over the demands in engine order. */
  function Allocate(ds: seq<Demand>, budget: real): (t: Totals)
    ensures budget >= 0.0 && (forall i :: 0 <= i < |ds| ==> ds[i].fuel >= 0.0) ==> 0.0 <= t.consumed <= budget
    decreases |ds|
  {
    if ds == [] then NoTotals
    else AllocateOne(Allocate(ds[..|ds| - 1], budget), ds[|ds| - 1], budget)
  }

  /** The allocation over one more demand is one more iteration of the loop. */
  lemma AllocateExtends(ds: seq<Demand>, i: nat, budget: real)
    requires i < |ds|
    ensures Allocate(ds[..i + 1], budget) == AllocateOne(Allocate(ds[..i], budget), ds[i], budget)
  {
    assert ds[..i + 1][..i] == ds[..i];
  }

  /**
   * The partial branch is safe and proportional: when the budget cannot cover an
   * engine but is not yet exhausted, that engine's draw is positive and the
   * share of its force it receives lies in [0,1).
   */
  lemma PartialShare(t: Totals, d: Demand, budget: real)
    requires t.consumed <= budget < t.consumed + d.fuel
    ensures d.fuel > 0.0
    ensures 0.0 <= Share(t, d, budget) < 1.0
  {
    var rest := budget - t.consumed;
    assert 0.0 <= rest < d.fuel;
    assert rest / d.fuel * d.fuel == rest;
    if rest / d.fuel >= 1.0 {
      ScaleUp(1.0, rest / d.fuel, d.fuel);
      assert false;
    }
  }

  /**
   * Every engine in the loop finds the running consumption within the budget,
   * so the last branch of the loop ("nothing left") is never taken: whenever an
   * engine cannot be served in full, the partial branch applies.
   */
  lemma {:induction false} BudgetNeverOverdrawn(ds: seq<Demand>, budget: real, i: nat)
    requires budget >= 0.0 && forall k :: 0 <= k < |ds| ==> ds[k].fuel >= 0.0
    requires i < |ds|
    ensures Allocate(ds[..i], budget).consumed <= budget
  {
    assert forall k :: 0 <= k < |ds[..i]| ==> ds[..i][k].fuel >= 0.0;
  }

  /** Sum of the demanded fuel. */
  function DemandedFuel(ds: seq<Demand>): real
    decreases |ds|
  {
    if ds == [] then 0.0 else DemandedFuel(ds[..|ds| - 1]) + ds[|ds| - 1].fuel
  }

  function DemandedThrustX(ds: seq<Demand>): real
    decreases |ds|
  {
    if ds == [] then 0.0 else DemandedThrustX(ds[..|ds| - 1]) + ds[|ds| - 1].thrustX
  }

  function DemandedThrustY(ds: seq<Demand>): real
    decreases |ds|
  {
    if ds == [] then 0.0 else DemandedThrustY(ds[..|ds| - 1]) + ds[|ds| - 1].thrustY
  }

  function DemandedTorque(ds: seq<Demand>): real
    decreases |ds|
  {
    if ds == [] then 0.0 else DemandedTorque(ds[..|ds| - 1]) + ds[|ds| - 1].lever * ds[|ds| - 1].thrustY
  }

  /**
   * When the fuel on board covers every engine's full draw, the allocation is
   * plain summation: every engine contributes all of its force and torque.
   */
  lemma {:induction false} AffordableStepIsFullThrust(ds: seq<Demand>, budget: real)
    requires forall i :: 0 <= i < |ds| ==> ds[i].fuel >= 0.0
    requires DemandedFuel(ds) <= budget
    ensures Allocate(ds, budget) == Totals(DemandedFuel(ds), DemandedThrustX(ds), DemandedThrustY(ds), DemandedTorque(ds))
    decreases |ds|
  {
    if ds != [] {
      var n := |ds| - 1;
      var init := ds[..n];
      assert forall i :: 0 <= i < |init| ==> init[i].fuel >= 0.0;
      SumsExtend(ds);
      assert ds[n].fuel >= 0.0;
      AffordableStepIsFullThrust(init, budget);
      var t := Allocate(init, budget);
      ServedInFull(t, ds[n], budget);
      AllocateExtends(ds, n, budget);
      assert ds[..n + 1] == ds;
    }
  }

  /** Each running sum is the sum over all but the last demand plus the last one. */
  lemma SumsExtend(ds: seq<Demand>)
    requires ds != []
    ensures var n := |ds| - 1; var d := ds[n];
      && DemandedFuel(ds) == DemandedFuel(ds[..n]) + d.fuel
      && DemandedThrustX(ds) == DemandedThrustX(ds[..n]) + d.thrustX
      && DemandedThrustY(ds) == DemandedThrustY(ds[..n]) + d.thrustY
      && DemandedTorque(ds) == DemandedTorque(ds[..n]) + d.lever * d.thrustY
  {
  }

  lemma ServedInFull(t: Totals, d: Demand, budget: real)
    requires t.consumed + d.fuel <= budget
    ensures AllocateOne(t, d, budget)
      == Totals(t.consumed + d.fuel, t.thrustX + d.thrustX, t.thrustY + d.thrustY, t.torque + d.lever * d.thrustY)
  {
  }

  /** A disarmed engine's demand: no fuel and no force, whatever its lever arm. */
  predicate Idle(d: Demand) {
    d.fuel == 0.0 && d.thrustX == 0.0 && d.thrustY == 0.0
  }

  lemma IdleDemandChangesNothing(t: Totals, d: Demand, budget: real)
    requires Idle(d)
    ensures AllocateOne(t, d, budget) == t
  {
  }

  /** The demands whose position is marked in `keep`, in order. */
  function Kept(ds: seq<Demand>, keep: seq<bool>): (r: seq<Demand>)
    requires |keep| == |ds|
    decreases |ds|
  {
    if ds == [] then []
    else Kept(ds[..|ds| - 1], keep[..|ds| - 1]) + (if keep[|ds| - 1] then [ds[|ds| - 1]] else [])
  }

  /** Idle demands can be dropped from the loop without changing any total. */
  lemma {:induction false} IdleDemandsCanBeDropped(ds: seq<Demand>, keep: seq<bool>, budget: real)
    requires |keep| == |ds|
    requires forall i :: 0 <= i < |ds| && !keep[i] ==> Idle(ds[i])
    ensures Allocate(ds, budget) == Allocate(Kept(ds, keep), budget)
    decreases |ds|
  {
    if ds != [] {
      var n := |ds| - 1;
      IdleDemandsCanBeDropped(ds[..n], keep[..n], budget);
      var kept := Kept(ds[..n], keep[..n]);
      if keep[n] {
        assert Kept(ds, keep) == kept + [ds[n]];
        assert (kept + [ds[n]])[..|kept|] == kept;
      } else {
        assert Kept(ds, keep) == kept;
        IdleDemandChangesNothing(Allocate(ds[..n], budget), ds[n], budget);
      }
    }
  }

  /** Demands that are all idle leave every total at zero. */
  lemma {:induction false} IdleDemandsAddNothing(ds: seq<Demand>, budget: real)
    requires forall i :: 0 <= i < |ds| ==> Idle(ds[i])
    ensures Allocate(ds, budget) == NoTotals
    decreases |ds|
  {
    if ds != [] {
      IdleDemandsAddNothing(ds[..|ds| - 1], budget);
      IdleDemandChangesNothing(NoTotals, ds[|ds| - 1], budget);
    }
  }

  // ---------------------------------------------------------------------------
  // The step

  predicate IsBully(spec: EngineSpec) { spec.kind == Some(Bully) }

  /** Some Bully engine is armed. */
  predicate BullyArmed(a: Airframe, s: seq<EngineState>)
    requires |s| == |a.engines|
  {
    exists i :: 0 <= i < |s| && IsBully(a.engines[i]) && s[i].thrusting
  }

  /** The Bully override: an armed Bully engine kills every other engine before the step. */
  function Override(a: Airframe, s: seq<EngineState>): (r: seq<EngineState>)
    requires |s| == |a.engines|
    ensures |r| == |s|
    ensures !BullyArmed(a, s) ==> r == s
    ensures BullyArmed(a, s) ==> forall i :: 0 <= i < |s| ==>
      r[i] == if IsBully(a.engines[i]) then s[i] else Killed(s[i])
  {
    if BullyArmed(a, s) then
      seq(|s|, i requires 0 <= i < |s| => if IsBully(a.engines[i]) then s[i] else Killed(s[i]))
    else s
  }

  /** What one engine does in one step of the loop: its new state, its fuel draw and its rocket-frame force. */
  datatype Burn = Burn(after: EngineState, fuel: real, thrustX: real, thrustY: real)

  /** `step()`, then `consume_fuel()`, then `thrust_components()` on one engine. */
  function EngineBurn(spec: EngineSpec, s: EngineState, jitter: real, m: Elementary): (b: Burn)
    requires WellFormed(spec)
    ensures b.fuel >= 0.0
    ensures b.after.thrusting == s.thrusting
    ensures !s.thrusting ==> b == Burn(s, 0.0, 0.0, 0.0)
    ensures InRange(s.ratio) || s.thrusting ==> InRange(b.after.ratio)
  {
    var stepped := Stepped(spec, s, jitter);
    var fuel := FuelDraw(spec, stepped);
    var refreshed := Refreshed(stepped);
    var xy := Components(spec, refreshed, m);
    Burn(refreshed, fuel, xy.0, xy.1)
  }

  function Burns(a: Airframe, s: seq<EngineState>, jitters: seq<real>, m: Elementary): (bs: seq<Burn>)
    requires Sound(a) && |s| == |a.engines| == |jitters|
    ensures |bs| == |s|
    ensures forall i :: 0 <= i < |s| ==> bs[i] == EngineBurn(a.engines[i], s[i], jitters[i], m)
  {
    seq(|s|, i requires 0 <= i < |s| => EngineBurn(a.engines[i], s[i], jitters[i], m))
  }

  /** Lever arm of an engine about the centre of mass. */
  function Lever(spec: EngineSpec, length: real, cm: real): real {
    spec.positionOnFuselage * length - cm
  }

  function Demands(a: Airframe, bs: seq<Burn>, cm: real): (ds: seq<Demand>)
    requires |bs| == |a.engines|
    ensures |ds| == |bs|
    ensures forall i :: 0 <= i < |bs| ==>
      ds[i] == Demand(bs[i].fuel, bs[i].thrustX, bs[i].thrustY, Lever(a.engines[i], a.fuselageLength, cm))
  {
    seq(|bs|, i requires 0 <= i < |bs| => Demand(bs[i].fuel, bs[i].thrustX, bs[i].thrustY, Lever(a.engines[i], a.fuselageLength, cm)))
  }

  /** The demands of all engines in a step, after the Bully override. */
  function StepDemands(a: Airframe, f: Flight, jitters: seq<real>, m: Elementary): (ds: seq<Demand>)
    requires Sound(a) && Fits(a, f) && |jitters| == |a.engines|
    ensures |ds| == |a.engines|
    ensures forall i :: 0 <= i < |ds| ==> ds[i].fuel >= 0.0
  {
    Demands(a, Burns(a, Override(a, f.engines), jitters, m), CenterOfMass(a, f.fuelMass))
  }

  /** The totals of the allocation loop of a step. */
  function StepTotals(a: Airframe, f: Flight, jitters: seq<real>, m: Elementary): (t: Totals)
    requires Sound(a) && Fits(a, f) && |jitters| == |a.engines|
    ensures 0.0 <= t.consumed <= f.fuelMass
  {
    Allocate(StepDemands(a, f, jitters, m), f.fuelMass)
  }

  /**
   * Rotation of a rocket-frame vector by the angular position into the global
   * frame; given sin^2 + cos^2 = 1 it preserves the length of the vector.
   */
  function Rotate(x: real, y: real, theta: real, m: Elementary): (g: (real, real))
    ensures Pythagorean(m) ==> g.0 * g.0 + g.1 * g.1 == x * x + y * y
  {
    var c, s := m.cos(theta), m.sin(theta);
    RotatedLength(x, y, c, s);
    (x * c - y * s, x * s + y * c)
  }

  lemma RotatedLength(x: real, y: real, c: real, s: real)
    ensures s * s + c * c == 1.0 ==> (x * c - y * s) * (x * c - y * s) + (x * s + y * c) * (x * s + y * c) == x * x + y * y
  {
    if s * s + c * c == 1.0 {
      calc {
        (x * c - y * s) * (x * c - y * s) + (x * s + y * c) * (x * s + y * c);
        x * x * (c * c + s * s) + y * y * (s * s + c * c);
        x * x + y * y;
      }
    }
  }

  /** Constant-acceleration update of position and velocity over one timestep. */
  function Integrate(mo: Motion, thrustX: real, thrustY: real, torque: real, mass: real, inertia: real): (r: Motion)
    requires mass != 0.0 && inertia != 0.0
    ensures r.positionX == mo.positionX + (mo.velocityX + r.velocityX) / 2.0 * TIMESTEP
    ensures r.positionY == mo.positionY + (mo.velocityY + r.velocityY) / 2.0 * TIMESTEP
    ensures r.angularPosition == mo.angularPosition + (mo.angularVelocity + r.angularVelocity) / 2.0 * TIMESTEP
    ensures r.velocityX - mo.velocityX == thrustX / mass * TIMESTEP
    ensures r.velocityY - mo.velocityY == (thrustY / mass - GRAVITY) * TIMESTEP
    ensures r.angularVelocity - mo.angularVelocity == torque / inertia * TIMESTEP
  {
    var ax := thrustX / mass;
    var ay := thrustY / mass - GRAVITY;
    var alpha := torque / inertia;
    Motion(
      mo.positionX + mo.velocityX * TIMESTEP + 0.5 * ax * (TIMESTEP * TIMESTEP),
      mo.positionY + mo.velocityY * TIMESTEP + 0.5 * ay * (TIMESTEP * TIMESTEP),
      mo.velocityX + ax * TIMESTEP,
      mo.velocityY + ay * TIMESTEP,
      mo.angularPosition + mo.angularVelocity * TIMESTEP + 0.5 * alpha * (TIMESTEP * TIMESTEP),
      mo.angularVelocity + alpha * TIMESTEP)
  }

  /** The ground: at or below height 0 the rocket sits at height 0 with no linear velocity. */
  function Grounded(mo: Motion): (r: Motion)
    ensures r.positionY >= 0.0
    ensures mo.positionY > 0.0 ==> r == mo
    ensures mo.positionY <= 0.0 ==> r == mo.(positionY := 0.0, velocityX := 0.0, velocityY := 0.0)
  {
    if mo.positionY <= 0.0 then mo.(positionY := 0.0, velocityX := 0.0, velocityY := 0.0) else mo
  }

  function KillAll(s: seq<EngineState>): (r: seq<EngineState>)
    ensures |r| == |s|
    ensures forall i :: 0 <= i < |s| ==> r[i] == Killed(s[i])
  {
    seq(|s|, i requires 0 <= i < |s| => Killed(s[i]))
  }

  function AfterStates(bs: seq<Burn>): (r: seq<EngineState>)
    ensures |r| == |bs|
    ensures forall i :: 0 <= i < |bs| ==> r[i] == bs[i].after
  {
    seq(|bs|, i requires 0 <= i < |bs| => bs[i].after)
  }

  /** The outcome of a step: the new flight state and the global-frame thrust vector it returns. */
  datatype StepResult = StepResult(flight: Flight, thrustX: real, thrustY: real)

  /** `Rocket.step()`: override, allocate, rotate, integrate, then the fuel and ground bookkeeping. */
  function StepFlight(a: Airframe, f: Flight, jitters: seq<real>, m: Elementary): (r: StepResult)
    requires Sound(a) && Fits(a, f) && |jitters| == |a.engines|
    ensures Fits(a, r.flight)
  {
    var bs := Burns(a, Override(a, f.engines), jitters, m);
    var t := StepTotals(a, f, jitters, m);
    var g := Rotate(t.thrustX, t.thrustY, f.motion.angularPosition, m);
    var moved := Integrate(f.motion, g.0, g.1, t.torque, TotalMass(a, f.fuelMass), MomentOfInertia(a, f.fuelMass));
    var fuel := Max(0.0, f.fuelMass - t.consumed);
    var states := if fuel == 0.0 then KillAll(AfterStates(bs)) else AfterStates(bs);
    StepResult(Flight(fuel, Grounded(moved), states), g.0, g.1)
  }

  // ---------------------------------------------------------------------------
  // What a step guarantees

  /**
   * Fuel is never created and never goes negative: the step burns exactly the
   * allocated consumption, which never exceeds the fuel on board, so the
   * clamp at zero never changes the result.
   */
  lemma StepFuelAccounting(a: Airframe, f: Flight, jitters: seq<real>, m: Elementary)
    requires Sound(a) && Fits(a, f) && |jitters| == |a.engines|
    ensures var next := StepFlight(a, f, jitters, m).flight;
      && 0.0 <= next.fuelMass <= f.fuelMass
      && next.fuelMass == f.fuelMass - StepTotals(a, f, jitters, m).consumed
  {
  }

  /** Once the tank is empty every engine is disarmed at ratio 0. */
  lemma EmptyTankKillsEveryEngine(a: Airframe, f: Flight, jitters: seq<real>, m: Elementary)
    requires Sound(a) && Fits(a, f) && |jitters| == |a.engines|
    ensures var next := StepFlight(a, f, jitters, m).flight;
      next.fuelMass == 0.0 ==> forall i :: 0 <= i < |next.engines| ==> !next.engines[i].thrusting && next.engines[i].ratio == 0.0
  {
  }

  /** After a step the rocket is never below ground, and on the ground it has no linear velocity. */
  lemma StepStaysAboveGround(a: Airframe, f: Flight, jitters: seq<real>, m: Elementary)
    requires Sound(a) && Fits(a, f) && |jitters| == |a.engines|
    ensures var next := StepFlight(a, f, jitters, m).flight.motion;
      && next.positionY >= 0.0
      && (next.positionY == 0.0 ==> next.velocityX == 0.0 && next.velocityY == 0.0)
  {
  }

  /**
   * Thrust ratios stay in [0,1]: an engine in range stays in range, and every
   * engine that is armed after the step is in range whatever it started with.
   */
  lemma StepKeepsRatiosInRange(a: Airframe, f: Flight, jitters: seq<real>, m: Elementary)
    requires Sound(a) && Fits(a, f) && |jitters| == |a.engines|
    ensures var next := StepFlight(a, f, jitters, m).flight.engines;
      && (forall i :: 0 <= i < |next| && InRange(f.engines[i].ratio) ==> InRange(next[i].ratio))
      && (forall i :: 0 <= i < |next| && next[i].thrusting ==> InRange(next[i].ratio))
  {
    var s := Override(a, f.engines);
    var next := StepFlight(a, f, jitters, m).flight.engines;
    forall i | 0 <= i < |next| && InRange(f.engines[i].ratio) ensures InRange(next[i].ratio) {
      assert InRange(s[i].ratio);
    }
  }

  /** Positions of the Bully engines. */
  function BullyMask(a: Airframe): (keep: seq<bool>)
    ensures |keep| == |a.engines|
    ensures forall i :: 0 <= i < |keep| ==> keep[i] == IsBully(a.engines[i])
  {
    seq(|a.engines|, i requires 0 <= i < |a.engines| => IsBully(a.engines[i]))
  }

  /**
   * The Bully override: if a Bully engine is armed when the step starts, every
   * other engine ends the step disarmed at ratio 0, and the step's fuel, force
   * and torque are exactly those of the Bully engines alone.
   */
  lemma BullyTakesOver(a: Airframe, f: Flight, jitters: seq<real>, m: Elementary)
    requires Sound(a) && Fits(a, f) && |jitters| == |a.engines|
    requires BullyArmed(a, f.engines)
    ensures var next := StepFlight(a, f, jitters, m).flight.engines;
      forall i :: 0 <= i < |next| && !IsBully(a.engines[i]) ==> !next[i].thrusting && next[i].ratio == 0.0
    ensures var ds := StepDemands(a, f, jitters, m);
      StepTotals(a, f, jitters, m) == Allocate(Kept(ds, BullyMask(a)), f.fuelMass)
  {
    var ds := StepDemands(a, f, jitters, m);
    var s := Override(a, f.engines);
    forall i | 0 <= i < |ds| && !BullyMask(a)[i] ensures Idle(ds[i]) {
      assert !s[i].thrusting;
    }
    IdleDemandsCanBeDropped(ds, BullyMask(a), f.fuelMass);
  }

  /**
   * A rocket with no armed engine coasts: the step burns no fuel, returns a
   * zero thrust vector, and (unless it reaches the ground) only gravity
   * changes its velocity.
   */
  lemma IdleRocketFallsFreely(a: Airframe, f: Flight, jitters: seq<real>, m: Elementary)
    requires Sound(a) && Fits(a, f) && |jitters| == |a.engines|
    requires forall i :: 0 <= i < |f.engines| ==> !f.engines[i].thrusting
    ensures var r := StepFlight(a, f, jitters, m);
      && r.thrustX == 0.0 && r.thrustY == 0.0
      && r.flight.fuelMass == f.fuelMass
      && (r.flight.motion.positionY > 0.0 ==>
            r.flight.motion.velocityY == f.motion.velocityY - GRAVITY * TIMESTEP
            && r.flight.motion.velocityX == f.motion.velocityX)
  {
    IdleStepHasNoTotals(a, f, jitters, m);
    var t := StepTotals(a, f, jitters, m);
    assert t == NoTotals;
    var g := Rotate(t.thrustX, t.thrustY, f.motion.angularPosition, m);
    assert g.0 == 0.0 && g.1 == 0.0;
    var moved := Integrate(f.motion, g.0, g.1, t.torque, TotalMass(a, f.fuelMass), MomentOfInertia(a, f.fuelMass));
    assert moved.velocityY == f.motion.velocityY - GRAVITY * TIMESTEP;
    assert moved.velocityX == f.motion.velocityX;
  }

  lemma IdleStepHasNoTotals(a: Airframe, f: Flight, jitters: seq<real>, m: Elementary)
    requires Sound(a) && Fits(a, f) && |jitters| == |a.engines|
    requires forall i :: 0 <= i < |f.engines| ==> !f.engines[i].thrusting
    ensures StepTotals(a, f, jitters, m) == NoTotals
  {
    var ds := StepDemands(a, f, jitters, m);
    assert !BullyArmed(a, f.engines);
    forall i | 0 <= i < |ds| ensures Idle(ds[i]) {
    }
    IdleDemandsAddNothing(ds, f.fuelMass);
  }
}
