/**
 * Class `Rocket` of rockets.py: a fuselage that carries fuel and a list of
 * engines, flown one timestep at a time.  Every method is proved against the
 * pure model in Dynamics and Sensors: `Step` performs `StepFlight` in place,
 * `Control` applies `Commanded` to the engines.
 */
module Rockets {
  import opened Wrappers
  import opened RealMath
  import opened Physics
  import opened PyStrings
  import opened Engines
  import opened Dynamics
  import opened Sensors

  const DEFAULT_FUSELAGE_LENGTH: real := 20.0
  const DEFAULT_FUSELAGE_MASS: real := 180.0
  const DEFAULT_FUEL_MASS: real := 2000.0

  /** The specifications of a list of engines, in order. */
  function SpecsOf(es: seq<Engine>): (r: seq<EngineSpec>)
    ensures |r| == |es|
    ensures forall i :: 0 <= i < |es| ==> r[i] == es[i].spec
  {
    seq(|es|, i requires 0 <= i < |es| => es[i].spec)
  }

  /** The states of a list of engines, in order. */
  function StatesOf(es: seq<Engine>): (r: seq<EngineState>)
    reads es
    ensures |r| == |es|
    ensures forall i :: 0 <= i < |es| ==> r[i] == es[i].State()
  {
    seq(|es|, i reads es requires 0 <= i < |es| => es[i].State())
  }

  /** No engine object is attached twice. */
  predicate Distinct(es: seq<Engine>) {
    forall i, j :: 0 <= i < j < |es| ==> es[i] != es[j]
  }

  // ---------------------------------------------------------------------------
  // add_engine by name

  /** The lower-case name `add_engine` compares against for each variant. */
  function LowerName(k: EngineKind): string {
    match k
    case Greedy => "greedyengine"
    case Patient => "patientengine"
    case Bully => "bullyengine"
    case UpSteering => "upsteeringengine"
    case DownSteering => "downsteeringengine"
  }

  /** The variant `add_engine` builds for a string argument, if it recognises the name. */
  function KindNamed(name: string): (k: Option<EngineKind>)
    ensures k.Some? ==> Lower(name) == LowerName(k.value)
    ensures k.None? ==> forall kind: EngineKind :: Lower(name) != LowerName(kind)
  {
    var n := Lower(name);
    if n == "greedyengine" then Some(Greedy)
    else if n == "patientengine" then Some(Patient)
    else if n == "bullyengine" then Some(Bully)
    else if n == "upsteeringengine" then Some(UpSteering)
    else if n == "downsteeringengine" then Some(DownSteering)
    else None
  }

  /** The lower-cased class name of each variant is the literal `add_engine` compares against. */
  lemma LowerKindName(k: EngineKind)
    ensures Lower(KindName(k)) == LowerName(k)
  {
    match k
    case Bully => assert Lower("BullyEngine") == "bullyengine";
    case Patient => assert Lower("PatientEngine") == "patientengine";
    case Greedy => assert Lower("GreedyEngine") == "greedyengine";
    case UpSteering => assert Lower("UpSteeringEngine") == "upsteeringengine";
    case DownSteering => assert Lower("DownSteeringEngine") == "downsteeringengine";
  }

  /** Each variant's own class name, in any letter case, selects that variant. */
  lemma KindNamesAreRecognised(k: EngineKind)
    ensures KindNamed(KindName(k)) == Some(k)
  {
    LowerKindName(k);
  }

  /** The argument of `add_engine`: an Engine object, a string, or some other value. */
  datatype EngineArg = Instance(engine: Engine) | Named(name: string) | Unsupported

  // ---------------------------------------------------------------------------
  // control

  /** One engine's response to its prediction: below 0.5 it is killed, otherwise it thrusts. */
  function Command(s: EngineState, p: real): (t: EngineState)
    ensures t.thrusting <==> p >= 0.5
    ensures InRange(t.ratio) && t.angle == s.angle
    ensures p < 0.5 ==> t.ratio == 0.0
    ensures p >= 0.5 && InRange(s.ratio) ==> t.ratio == s.ratio
  {
    if p < 0.5 then Killed(s) else Thrusted(s)
  }

  /** The engine states after `control()` applies the predictions, one per engine, from the first. */
  function Commanded(s: seq<EngineState>, p: seq<real>): (r: seq<EngineState>)
    ensures |r| == |s|
    ensures forall i :: 0 <= i < |s| ==> r[i] == if i < |p| then Command(s[i], p[i]) else s[i]
  {
    seq(|s|, i requires 0 <= i < |s| => if i < |p| then Command(s[i], p[i]) else s[i])
  }

  /** Repeating the same prediction changes nothing more. */
  lemma CommandIsIdempotent(s: seq<EngineState>, p: seq<real>)
    ensures Commanded(Commanded(s, p), p) == Commanded(s, p)
  {
    var once := Commanded(s, p);
    forall i | 0 <= i < |s| && i < |p| ensures Command(once[i], p[i]) == once[i] {
      if p[i] < 0.5 {
        KillIsIdempotent(s[i]);
      } else {
        ThrustIsIdempotent(s[i]);
      }
    }
  }

  /** What `control()` passes to the controller. */
  datatype ControllerInput = ControllerInput(readings: Readings, thrustRatios: seq<real>, fuelFraction: real)

  class Rocket {
    const fuselageLength: real
    const fuselageMass: real
    const initialFuelMass: real
    var fuelMass: real
    var positionX: real
    var positionY: real
    var velocityX: real
    var velocityY: real
    var angularPosition: real
    var angularVelocity: real
    var engines: seq<Engine>

    /** The parts that do not change during a flight. */
    function Frame(): Airframe
      reads this
    {
      Airframe(fuselageLength, fuselageMass, SpecsOf(engines))
    }

    function Kinematics(): Motion
      reads this
    {
      Motion(positionX, positionY, velocityX, velocityY, angularPosition, angularVelocity)
    }

    function EngineStates(): seq<EngineState>
      reads this, engines
    {
      StatesOf(engines)
    }

    /** The abstract value of everything a step changes. */
    function Current(): Flight
      reads this, engines
    {
      Flight(fuelMass, Kinematics(), EngineStates())
    }

    ghost predicate Valid()
      reads this
    {
      && Sound(Frame())
      && 0.0 <= fuelMass <= initialFuelMass
      && Distinct(engines)
    }

    /** A rocket with no engines; the initial fuel mass is remembered for the controller's fuel fraction. */
    constructor (fuselageLength: real, fuselageMass: real, fuelMass: real,
                 positionX: real, positionY: real, velocityX: real, velocityY: real,
                 angularPosition: real, angularVelocity: real)
      requires fuselageLength > 0.0 && fuselageMass > 0.0 && fuelMass >= 0.0
      ensures Valid()
      ensures engines == []
      ensures this.fuselageLength == fuselageLength && this.fuselageMass == fuselageMass
      ensures initialFuelMass == fuelMass && this.fuelMass == fuelMass
      ensures Kinematics() == Motion(positionX, positionY, velocityX, velocityY, angularPosition, angularVelocity)
    {
      this.fuselageLength := fuselageLength;
      this.fuselageMass := fuselageMass;
      this.fuelMass := fuelMass;
      this.initialFuelMass := fuelMass;
      this.positionX := positionX;
      this.positionY := positionY;
      this.velocityX := velocityX;
      this.velocityY := velocityY;
      this.angularVelocity := angularVelocity;
      this.angularPosition := angularPosition;
      this.engines := [];
    }

    /** The rocket built with every default: 20 m, 180 kg, 2000 kg of fuel, at rest at the origin. */
    constructor Default()
      ensures Valid()
      ensures engines == []
      ensures fuselageLength == DEFAULT_FUSELAGE_LENGTH && fuselageMass == DEFAULT_FUSELAGE_MASS
      ensures initialFuelMass == DEFAULT_FUEL_MASS && fuelMass == DEFAULT_FUEL_MASS
      ensures Kinematics() == Motion(0.0, 0.0, 0.0, 0.0, 0.0, 0.0)
    {
      fuselageLength := DEFAULT_FUSELAGE_LENGTH;
      fuselageMass := DEFAULT_FUSELAGE_MASS;
      fuelMass := DEFAULT_FUEL_MASS;
      initialFuelMass := DEFAULT_FUEL_MASS;
      positionX, positionY, velocityX, velocityY := 0.0, 0.0, 0.0, 0.0;
      angularVelocity, angularPosition := 0.0, 0.0;
      engines := [];
    }

    /**
     * `add_engine()`: an Engine object is appended as it is; a string that names
     * a variant, in any letter case, appends a new engine of that variant;
     * anything else is reported and ignored.
     */
    method AddEngine(arg: EngineArg)
      requires Valid()
      requires arg.Instance? ==> arg.engine !in engines && WellFormed(arg.engine.spec)
      modifies this
      ensures Valid()
      ensures fuelMass == old(fuelMass) && Kinematics() == old(Kinematics())
      ensures arg.Instance? ==> engines == old(engines) + [arg.engine]
      ensures arg.Named? && KindNamed(arg.name).Some? ==>
        && |engines| == |old(engines)| + 1
        && engines[..|old(engines)|] == old(engines)
        && fresh(engines[|old(engines)|])
        && engines[|old(engines)|].spec == KindSpec(KindNamed(arg.name).value)
        && engines[|old(engines)|].State() == EngineState(false, 0.0, InitialAngle(KindNamed(arg.name).value))
      ensures (arg.Named? && KindNamed(arg.name).None?) || arg.Unsupported? ==> engines == old(engines)
    {
      if arg.Instance? {
        engines := engines + [arg.engine];
      } else if arg.Named? {
        var kind := KindNamed(arg.name);
        if kind.Some? {
          var e := new Engine.OfKind(kind.value);
          engines := engines + [e];
        }
      }
    }

    /** The engine part of `step()`: the Bully override, then every engine burns and is served in turn. */
    method Fire(m: Elementary, jitters: seq<real>) returns (t: Totals)
      requires Valid() && |jitters| == |engines|
      modifies engines
      ensures Valid()
      ensures engines == old(engines) && fuelMass == old(fuelMass) && Kinematics() == old(Kinematics())
      ensures EngineStates() == AfterStates(Burns(Frame(), Override(Frame(), old(EngineStates())), jitters, m))
      ensures t == StepTotals(Frame(), old(Current()), jitters, m)
    {
      ghost var a := Frame();
      OverrideEach(engines, a);
      // The centre of mass depends only on the fuel on board, which the loop does not spend.
      var cm := CenterOfMass(Frame(), fuelMass);
      t := BurnEach(engines, fuselageLength, a, m, jitters, cm, fuelMass);
    }

    /**
     * The motion part of `step()`: integrate under the global-frame thrust and
     * torque with the mass and moment of inertia from before the fuel is spent,
     * then settle the fuel, the engines and the ground contact.
     */
    method Fly(thrustX: real, thrustY: real, torque: real, consumed: real)
      requires Valid() && 0.0 <= consumed
      modifies this, engines
      ensures Valid() && engines == old(engines)
      ensures fuelMass == Max(0.0, old(fuelMass) - consumed)
      ensures Kinematics() == Grounded(Dynamics.Integrate(old(Kinematics()), thrustX, thrustY, torque,
        TotalMass(Frame(), old(fuelMass)), MomentOfInertia(Frame(), old(fuelMass))))
      ensures EngineStates() == if fuelMass == 0.0 then KillAll(old(EngineStates())) else old(EngineStates())
    {
      var mass, inertia := TotalMass(Frame(), fuelMass), MomentOfInertia(Frame(), fuelMass);
      Integrate(thrustX, thrustY, torque, mass, inertia);
      Settle(consumed);
    }

    /** The integration of `step()`, with the thrust, mass and moment of inertia it is handed. */
    method Integrate(thrustX: real, thrustY: real, torque: real, mass: real, inertia: real)
      requires mass != 0.0 && inertia != 0.0
      modifies this
      ensures engines == old(engines) && fuelMass == old(fuelMass)
      ensures Kinematics() == Dynamics.Integrate(old(Kinematics()), thrustX, thrustY, torque, mass, inertia)
    {
      var ax := thrustX / mass;
      var ay := thrustY / mass - GRAVITY;
      positionX := positionX + velocityX * TIMESTEP + 0.5 * ax * (TIMESTEP * TIMESTEP);
      positionY := positionY + velocityY * TIMESTEP + 0.5 * ay * (TIMESTEP * TIMESTEP);
      velocityX := velocityX + ax * TIMESTEP;
      velocityY := velocityY + ay * TIMESTEP;
      var alpha := torque / inertia;
      angularPosition := angularPosition + angularVelocity * TIMESTEP + 0.5 * alpha * (TIMESTEP * TIMESTEP);
      angularVelocity := angularVelocity + alpha * TIMESTEP;
    }

    /**
     * The bookkeeping at the end of `step()`: the fuel burnt is taken from the
     * tank (never below zero), an empty tank kills every engine, and a rocket at
     * or below the ground stops there.
     */
    method Settle(consumed: real)
      requires Valid() && 0.0 <= consumed
      modifies this, engines
      ensures Valid() && engines == old(engines)
      ensures fuelMass == Max(0.0, old(fuelMass) - consumed)
      ensures EngineStates() == if fuelMass == 0.0 then KillAll(old(EngineStates())) else old(EngineStates())
      ensures Kinematics() == Grounded(old(Kinematics()))
    {
      fuelMass := Max(0.0, fuelMass - consumed);
      if fuelMass == 0.0 {
        KillEach(engines);
      }
      if positionY <= 0.0 {
        positionY := 0.0;
        velocityX := 0.0;
        velocityY := 0.0;
      }
    }

    /**
     * `step()`: one timestep of flight.  The new state is `StepFlight` of the old
     * one and the returned vector its global-frame thrust.  `ok` is false when
     * the rocket is on the ground after the step and was built without fuel:
     * there the crash report divides by the initial fuel mass and raises.
     */
    method Step(m: Elementary, jitters: seq<real>) returns (thrustX: real, thrustY: real, ok: bool)
      requires Valid() && |jitters| == |engines|
      modifies this, engines
      ensures Valid()
      ensures engines == old(engines)
      ensures var r := StepFlight(old(Frame()), old(Current()), jitters, m);
        Current() == r.flight && thrustX == r.thrustX && thrustY == r.thrustY
      ensures ok <==> !(positionY == 0.0 && initialFuelMass == 0.0)
    {
      var t := Fire(m, jitters);
      var g := Rotate(t.thrustX, t.thrustY, angularPosition, m);
      Fly(g.0, g.1, t.torque, t.consumed);
      ok := !(positionY == 0.0 && initialFuelMass == 0.0);
      thrustX, thrustY := g.0, g.1;
    }

    /** The controller's inputs: the sensor readings, each engine's thrust ratio and the fraction of fuel left. */
    function ControllerInputs(noise: Noise, m: Elementary): (c: ControllerInput)
      reads this, engines
      requires initialFuelMass != 0.0
      ensures |c.thrustRatios| == |engines|
      ensures forall i :: 0 <= i < |engines| ==> c.thrustRatios[i] == engines[i].ratio
      ensures Valid() ==> 0.0 <= c.fuelFraction <= 1.0
    {
      var ratios := seq(|engines|, i reads this, engines requires 0 <= i < |engines| => engines[i].ratio);
      FractionIsAtMostOne(fuelMass, initialFuelMass);
      ControllerInput(Sense(Kinematics(), noise, m), ratios, fuelMass / initialFuelMass)
    }

    /**
     * `control()`: with no controller (`prediction` None) nothing happens;
     * otherwise engine i is killed when prediction i is below 0.5 and thrusts
     * otherwise.  `ok` is false when Python raises: the fuel fraction divides
     * by the initial fuel mass before anything else, and a prediction longer
     * than the engine list indexes past its end after every engine is set.
     */
    method Control(prediction: Option<seq<real>>) returns (ok: bool)
      requires Valid()
      modifies engines
      ensures Valid()
      ensures ok <==> initialFuelMass != 0.0 && (prediction.Some? ==> |prediction.value| <= |engines|)
      ensures initialFuelMass == 0.0 || prediction.None? ==> EngineStates() == old(EngineStates())
      ensures initialFuelMass != 0.0 && prediction.Some? ==>
        EngineStates() == Commanded(old(EngineStates()), prediction.value)
    {
      if initialFuelMass == 0.0 || prediction.None? {
        return initialFuelMass != 0.0;
      }
      CommandEach(engines, prediction.value);
      ok := |prediction.value| <= |engines|;
    }
  }

  // ---------------------------------------------------------------------------
  // The loops of `step()` and `control()` over the engine list

  /** The Bully override: if some Bully engine is armed, every non-Bully engine is killed. */
  method OverrideEach(es: seq<Engine>, ghost a: Airframe)
    requires a.engines == SpecsOf(es) && Distinct(es)
    modifies es
    ensures StatesOf(es) == Override(a, old(StatesOf(es)))
  {
    ghost var before := StatesOf(es);
    var bully := false;
    var i := 0;
    while i < |es|
      invariant 0 <= i <= |es|
      invariant bully <==> exists j :: 0 <= j < i && IsBully(a.engines[j]) && before[j].thrusting
    {
      bully := bully || (IsBully(es[i].spec) && es[i].thrusting);
      i := i + 1;
    }
    assert bully == BullyArmed(a, before);
    if bully {
      ghost var after := Override(a, before);
      i := 0;
      while i < |es|
        invariant 0 <= i <= |es|
        invariant forall j :: 0 <= j < |es| ==> es[j].State() == if j < i then after[j] else before[j]
      {
        assert es[i].spec == a.engines[i];
        if !IsBully(es[i].spec) {
          es[i].Kill();
        }
        assert es[i].State() == after[i];
        i := i + 1;
      }
    }
  }

  /**
   * The engine loop of `step()` on the engines `es` of airframe `a`: each engine
   * is stepped, asked for its fuel and its force, and served in turn from
   * `budget`, the fuel on board; `t` holds the fuel granted and the thrust and
   * torque it buys.
   */
  method BurnEach(es: seq<Engine>, length: real, ghost a: Airframe, m: Elementary, jitters: seq<real>, cm: real, budget: real)
    returns (t: Totals)
    requires Sound(a) && a.engines == SpecsOf(es) && a.fuselageLength == length && Distinct(es) && |jitters| == |es|
    modifies es
    ensures var bs := Burns(a, old(StatesOf(es)), jitters, m);
      && StatesOf(es) == AfterStates(bs)
      && t == Allocate(Demands(a, bs, cm), budget)
  {
    ghost var bs := Burns(a, StatesOf(es), jitters, m);
    ghost var ds := Demands(a, bs, cm);
    ghost var before := StatesOf(es);
    ghost var after := AfterStates(bs);
    t := NoTotals;
    var i := 0;
    while i < |es|
      invariant 0 <= i <= |es|
      invariant forall j :: 0 <= j < |es| ==> es[j].State() == if j < i then after[j] else before[j]
      invariant t == Allocate(ds[..i], budget)
    {
      var e := es[i];
      var fuel, x, y := BurnEngine(e, jitters[i], m);
      var d := Demand(fuel, x, y, Lever(e.spec, length, cm));
      assert d == ds[i];
      AllocateExtends(ds, i, budget);
      t := AllocateOne(t, d, budget);
      i := i + 1;
    }
    assert ds[..|es|] == ds;
  }

  /** One engine's part of the loop body: step it, then ask for its fuel draw and its force. */
  method BurnEngine(e: Engine, jitter: real, m: Elementary) returns (fuel: real, x: real, y: real)
    requires WellFormed(e.spec)
    modifies e
    ensures EngineBurn(e.spec, old(e.State()), jitter, m) == Burn(e.State(), fuel, x, y)
  {
    e.Step(jitter);
    fuel := e.ConsumeFuel();
    x, y := e.ThrustComponents(m);
  }

  /** The last act of `step()` on an empty tank: every engine is killed. */
  method KillEach(es: seq<Engine>)
    requires Distinct(es)
    modifies es
    ensures StatesOf(es) == KillAll(old(StatesOf(es)))
  {
    ghost var before := StatesOf(es);
    var i := 0;
    while i < |es|
      invariant 0 <= i <= |es|
      invariant forall j :: 0 <= j < |es| ==> es[j].State() == if j < i then Killed(before[j]) else before[j]
    {
      es[i].Kill();
      i := i + 1;
    }
  }

  /** The loop of `control()`: engine i follows prediction i, for as many engines as there are predictions. */
  method CommandEach(es: seq<Engine>, p: seq<real>)
    requires Distinct(es)
    modifies es
    ensures StatesOf(es) == Commanded(old(StatesOf(es)), p)
  {
    ghost var before := StatesOf(es);
    var i := 0;
    while i < |p| && i < |es|
      invariant 0 <= i <= |es| && i <= |p|
      invariant forall j :: 0 <= j < |es| ==> es[j].State() == if j < i then Command(before[j], p[j]) else before[j]
    {
      if p[i] < 0.5 {
        es[i].Kill();
      } else {
        var _ := es[i].Thrust();
      }
      i := i + 1;
    }
  }

  lemma FractionIsAtMostOne(x: real, total: real)
    requires total != 0.0
    ensures 0.0 <= x <= total ==> 0.0 <= x / total <= 1.0
  {
    if 0.0 <= x <= total {
      assert total > 0.0;
      assert x / total * total == x;
    }
  }
}
