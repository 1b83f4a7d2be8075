# RocketEvolution core in Dafny

RocketEvolution evolves neural-network controllers that fly a two-dimensional
rocket. This project models the parts of that repository that make up the
simulation and its bookkeeping:

- **Engines.** There is one engine class in `rockets.py`, with five variants:
  Greedy, Patient, Bully, UpSteering and DownSteering, each with its own table
  of constants. Engines ignite, are killed, ramp their thrust ratio up
  towards 1, burn fuel in proportion to their force, and resolve that force
  into x and y components.
- **The rocket.** The rocket in `rockets.py` is a fuselage carrying fuel and
  a list of engines. Its mass, centre of mass and moment of inertia are
  modelled, as are its scaled sensor readings and `add_engine`. Above all,
  `step` is modelled: the Bully override, the sequential allocation of the
  fuel on board among the engines, rotation into the global frame,
  integration of the motion, bookkeeping of the fuel tank, and the ground
  clamp. `control` applies a controller's predictions to the engines.
- **The engine code.** This is the five-character "BPGUD" presence code of
  `file_manager.py`: its encoder, decoder and validator.
- **The results folders.** In `main.py`, folders are named
  `"<fitness>_<id>"`. The model covers the folder-name parsers, the filter
  over a generation's listing, and the stable sort by fitness, which picks
  the minimum, both quartiles, the median and the maximum.

The modules follow that structure:
- `Wrappers`: `Option` and `Result`.
- `RealMath`: reals standing in for floats, and the `math` functions as parameters.
- `Physics`: the constants of `physics.py`.
- `PyStrings`: Python's `lower`, `in`, `split` and `int()` on strings.
- `Engines`: the engine state, its pure transitions, and class `Engine`.
- `Dynamics`: mass properties, the allocation loop as a fold, and a whole step as `StepFlight`.
- `Sensors`: the scaled readings of `sense()`.
- `Rockets`: class `Rocket`.
- `FileManager`: the engine code.
- `Generations`: the folder parsers and the summary of `main.py`.

The stateful classes are Dafny classes:
- `Engine.thrust`, `kill`, `step`, `consume_fuel` and `thrust_components` are
  methods. Each is proved to move the engine's abstract state (`State()`) by a
  pure transition: `Thrusted`, `Killed`, `Stepped`, `Refreshed`.
- `Rocket.step` is a method. It is proved to leave the rocket exactly in the
  state the pure function `Dynamics.StepFlight` computes, and to return its
  thrust vector. The properties of a step are lemmas about `StepFlight`:
  - the fuel accounting;
  - the allocation never exceeding the tank;
  - the Bully take-over;
  - an empty tank killing every engine;
  - the rocket never going below ground;
  - thrust ratios staying in range;
  - an idle rocket falling freely.
- The loops in `step` (the Bully loops, the engine loop at rockets.py:226-240,
  and the kill loop) and in `control` have their own methods with invariants.
  Each is proved against a pure specification: `Override`, `Allocate`,
  `KillAll` and `Commanded`.

Several things are inputs to the model:
- **Randomness.** The angle jitter of each `Engine.step` (`np.random.normal`)
  is a sequence of numbers, one per engine. The sensor noise of `sense()` is
  a record of four numbers.
- **Elementary functions.** `sin`, `cos`, `log` and `sqrt` are an
  `Elementary` record of functions. A lemma that needs one of their laws
  (`sin² + cos² = 1`, `log` increasing with `log 1 = 0`) asks for it as a
  precondition.
- **The controller.** Its prediction is an `Option<seq<real>>`; `None` is
  "no controller".
- **The listing.** `os.listdir` is a list of folder names.

Python exceptions become results:
- `Rocket.Step` and `Rocket.Control` return `ok == false` where Python would
  raise `ZeroDivisionError` (an initial fuel mass of 0) or `IndexError` (more
  predictions than engines).
- `Generations.Summarize` returns a `Failure`:
  - for a folder name that `int()` rejects (`ValueError`) or that lacks a
    piece (`IndexError`);
  - for an empty generation, from the `IndexError` of `individuals_sorted[0]`.

Where the comments and the code disagree, the model follows the code:
- The comment at rockets.py:189 says that π maps to 1 in feature space. The
  code `((x - pi) % (2*pi)) / (2*pi)` maps it to 0 (`Sensors.AngularPositionLandmarks`).
- The comment at rockets.py:48 says that `Engine.step` returns the fuel
  burned. It returns nothing; the fuel comes from `consume_fuel`.

## Model

| member | source | states |
|---|---|---|
| Engines.KindSpec | rockets.py:74-132 | the constant table of the five variants (mass, maximum thrust, time to maximum thrust, efficiency, angle variance, position on the fuselage); each variant carries its own class name and is physically well formed |
| Engines.InitialAngle | rockets.py:110-132 | UpSteering starts at angle π/4, DownSteering at -π/4, every other variant at 0 |
| Engines.Clamp | rockets.py:35-38 | the clamped ratio lies in [0,1], equals the ratio when that is already in range, and is 0 below the range and 1 above it |
| Engines.Thrusted | rockets.py:33-39 | `thrust()` leaves the engine thrusting with its ratio in [0,1] and its angle unchanged; an in-range ratio is kept |
| Engines.Killed | rockets.py:42-44 | `kill()` leaves the engine idle with ratio 0 and the same angle |
| Engines.RampPerStep | rockets.py:53 | the ramp per timestep TIMESTEP / time_to_max_thrust is positive for every well-formed engine |
| Engines.Stepped | rockets.py:49-55 | `step()` changes nothing on an idle engine; on a thrusting engine it adds the jitter to the angle and, from a ratio of at most 1, raises the ratio by exactly the ramp capped at 1; a ratio already above 1 is left alone; the ratio never drops and never grows by more than the ramp, so an in-range ratio stays in range |
| Engines.Refreshed | rockets.py:59-72 | the inner `thrust()` call of `consume_fuel` and `thrust_components` keeps the thrusting flag and angle, puts a thrusting engine's ratio in range, and changes nothing when the ratio is already in range |
| Engines.FuelDraw | rockets.py:59-64 | the fuel burned in one timestep is 0 for an idle engine and otherwise the clamped force times TIMESTEP over 250 × efficiency, between 0 and the engine's full-throttle draw |
| Engines.Components | rockets.py:68-72 | an idle engine contributes the force (0, 0) |
| Engines.ComponentsCarryTheForce | rockets.py:68-72 | given sin² + cos² = 1, the squared x and y components add up to the squared force |
| Engines.KillIsIdempotent | rockets.py:42-44 | killing twice is killing once |
| Engines.ThrustIsIdempotent | rockets.py:33-39 | igniting twice is igniting once |
| Engines.SteppedTimesRamp | rockets.py:49-54 | over any number of steps a thrusting engine stays thrusting, with its ratio in range, and the ratio follows the capped ramp |
| Engines.CappedRampIsLinear | rockets.py:52-54 | adding Δ and capping at 1, n times, is the same as capping r + nΔ once |
| Engines.LinearRamp | rockets.py:49-54 | after n steps a thrusting engine's ratio is min(r + n × TIMESTEP / time_to_max_thrust, 1): a Patient engine needs 600 steps from 0 to full thrust |
| Engines.Engine.constructor | rockets.py:19-29 | a plain engine holds the given parameters and state |
| Engines.Engine.OfDefaults | rockets.py:10-29 | `Engine()` with its default arguments: the default table (name "Engine", 100 kg, 100 N, 1 s, efficiency 1, variance 1, at the rear), which is well formed, idle at ratio 0 and angle 0 |
| Engines.Engine.OfKind | rockets.py:74-132 | a variant's constructor installs its constant table, idle, with ratio 0 and its initial angle |
| Engines.Engine.Thrust | rockets.py:33-39 | the engine's new state is `Thrusted` of the old one, and the returned force is the maximum thrust times the clamped ratio |
| Engines.Engine.Kill | rockets.py:42-44 | the engine's new state is `Killed` of the old one |
| Engines.Engine.Step | rockets.py:49-55 | the engine's new state is `Stepped` of the old one with the given jitter |
| Engines.Engine.ConsumeFuel | rockets.py:59-64 | returns `FuelDraw` of the old state and leaves the state `Refreshed` |
| Engines.Engine.ThrustComponents | rockets.py:68-72 | returns `Components` of the old state and leaves the state `Refreshed` |
| Dynamics.EngineMass | rockets.py:153 | the summed mass of the engines (defined by recursion; non-negativity is `EngineMassIsNonNegative`) |
| Dynamics.EngineMoment | rockets.py:156 | the summed position × mass of the engines, the engines' part of the centre-of-mass numerator (bounds in `EngineMomentWithinMass`) |
| Dynamics.EngineInertia | rockets.py:159 | the summed mass × (length × position − centre of mass)² of the engines (non-negativity in `EngineInertiaIsNonNegative`) |
| Dynamics.EngineMassIsNonNegative | rockets.py:153 | the engines' total mass is non-negative |
| Dynamics.EngineMomentWithinMass | rockets.py:156 | the sum of position × mass over the engines lies between 0 and their total mass |
| Dynamics.EngineInertiaIsNonNegative | rockets.py:159 | the engines' point-mass contribution to the moment of inertia is non-negative for any centre of mass |
| Dynamics.TotalMass | rockets.py:152-153 | the rocket's mass is at least fuselage plus fuel, hence positive |
| Dynamics.CenterOfMass | rockets.py:155-156 | the centre of mass lies on the fuselage, between 0 and its length |
| Dynamics.RodInertia | rockets.py:159 | the fuselage-and-fuel term (1/12) m L² is positive |
| Dynamics.MomentOfInertia | rockets.py:158-159 | the moment of inertia is positive, so the angular acceleration of `step` is defined |
| Dynamics.AllocateOne | rockets.py:231-240 | one iteration of the allocation loop keeps the running consumption within the fuel on board, and drains exactly to the fuel on board when the engine cannot be served in full |
| Dynamics.Allocate | rockets.py:226-240 | the allocation loop consumes between 0 and the fuel on board |
| Dynamics.AllocateExtends | rockets.py:226-240 | allocating one more engine is one more loop iteration on the running totals |
| Dynamics.PartialShare | rockets.py:236-240 | the partial branch divides by a positive draw, and the share of force it grants lies in [0,1) |
| Dynamics.BudgetNeverOverdrawn | rockets.py:231-240 | every engine meets the running consumption within the fuel on board, so whenever full service fails the partial branch applies and the "nothing left" case never occurs |
| Dynamics.AffordableStepIsFullThrust | rockets.py:226-235 | when the fuel on board covers every engine in full, the totals are the plain sums of fuel, thrust and torque |
| Dynamics.IdleDemandChangesNothing | rockets.py:226-240 | an engine with no draw and no force leaves the running totals unchanged |
| Dynamics.IdleDemandsCanBeDropped | rockets.py:226-240 | removing idle engines from the loop does not change the totals |
| Dynamics.IdleDemandsAddNothing | rockets.py:226-240 | a loop over idle engines only yields zero totals |
| Dynamics.Override | rockets.py:222-225 | without an armed Bully the states are untouched; with one, every non-Bully engine is killed and every Bully kept |
| Dynamics.EngineBurn | rockets.py:227-229 | one engine's step, fuel draw and components: the draw is non-negative, the thrusting flag is kept, an idle engine yields nothing and keeps its state, and an engine that is thrusting or in range ends in range |
| Dynamics.Burns | rockets.py:226-229 | every engine is burned with its own jitter, in order |
| Dynamics.Demands | rockets.py:229-234 | each engine's demand holds its draw, its components and its lever arm position × length − centre of mass |
| Dynamics.StepDemands | rockets.py:222-234 | every demand of a step draws non-negative fuel |
| Dynamics.StepTotals | rockets.py:218-240 | a step consumes between 0 and the fuel on board |
| Dynamics.Rotate | rockets.py:241-242 | the rocket-frame thrust turned by the angular position into the global frame; given sin² + cos² = 1 it keeps the magnitude of the thrust |
| Dynamics.Integrate | rockets.py:243-251 | one constant-acceleration timestep: each velocity changes by its acceleration (thrust over mass, less gravity vertically; torque over moment of inertia for the angular velocity) times TIMESTEP, and each position moves by the mean of the old and new velocity times TIMESTEP, linear and angular alike |
| Dynamics.Grounded | rockets.py:255-258 | at or below ground the height and both velocities are set to 0; above ground nothing changes |
| Dynamics.KillAll | rockets.py:253-254 | every engine is killed |
| Dynamics.StepFlight | rockets.py:217-260 | a step keeps the flight consistent with the airframe: one state per engine, and fuel that is not negative |
| Dynamics.StepFuelAccounting | rockets.py:231-252 | the tank after a step is the tank before minus what the allocation consumed, and stays between 0 and its previous level |
| Dynamics.EmptyTankKillsEveryEngine | rockets.py:252-254 | when a step empties the tank, every engine ends idle with ratio 0 |
| Dynamics.StepStaysAboveGround | rockets.py:255-258 | after a step the rocket is never below ground, and on the ground it has no linear velocity |
| Dynamics.StepKeepsRatiosInRange | rockets.py:217-254 | an in-range thrust ratio stays in range, and every engine still thrusting has its ratio in range |
| Dynamics.BullyMask | rockets.py:222-224 | marks exactly the Bully engines |
| Dynamics.BullyTakesOver | rockets.py:222-240 | with a Bully thrusting, every other engine ends the step killed, and the step's totals are those of the Bully engines alone |
| Dynamics.IdleRocketFallsFreely | rockets.py:241-251 | with every engine idle the step returns no thrust and uses no fuel, and above ground only gravity changes the velocity |
| Dynamics.IdleStepHasNoTotals | rockets.py:226-240 | with every engine idle the loop yields zero totals |
| Sensors.TrueSpeed | rockets.py:161-162 | the speed is `sqrt` of vx² + vy², with `sqrt` a parameter |
| Sensors.Compress | rockets.py:179-185 | readings above 1 become 1 + log x, others pass unchanged (properties in `CompressionKeepsSmallReadings`, `CompressionIsMonotone`, `CompressionExceedsOneIff`) |
| Sensors.ScaleAltitude | rockets.py:178-181 | the altitude over 500 m, compressed: up to 500 m the reading is linear, altitude / 500 |
| Sensors.ScaleSpeed | rockets.py:182-185 | the speed over 225 m/s, compressed: up to 225 m/s the reading is linear, speed / 225 |
| Sensors.ScaleAngularVelocity | rockets.py:190-192 | (ω + 3π) / 6π (its range and monotonicity in `AngularVelocityScale`) |
| Sensors.ScaleAngularPosition | rockets.py:186-187 | the scaled angular position always lies in [0,1) |
| Sensors.Sense | rockets.py:177-193 | the scaled readings are the noisy true values put through the four scalings, with the angular reading in [0,1) |
| Sensors.CompressionKeepsSmallReadings | rockets.py:179-185 | a scaled altitude or speed up to 1 passes unchanged |
| Sensors.CompressionIsMonotone | rockets.py:179-185 | given that log is increasing, compression preserves order |
| Sensors.CompressionExceedsOneIff | rockets.py:179-185 | given that log is increasing, a compressed reading exceeds 1 exactly when the raw ratio does |
| Sensors.AltitudeOfTwiceTheScaler | rockets.py:178-181 | an altitude of 1000 m reads as 1 + log 2 |
| Sensors.AngularPositionIsPeriodic | rockets.py:186-187 | the angular reading is periodic with period 2π |
| Sensors.AngularPositionOnPrincipalRange | rockets.py:186-189 | on [-π, π) the angular reading is (x + π) / 2π |
| Sensors.AngularPositionLandmarks | rockets.py:186-189 | 0 rad reads 0.5, -π reads 0, and π also reads 0 |
| Sensors.AngularVelocityScale | rockets.py:190-192 | 0 rad/s reads 0.5, the scaling is strictly increasing, and it lies in [0,1] exactly on [-3π, 3π] |
| Rockets.KindNamed | rockets.py:198-211 | a name is recognised exactly when its lower-cased form is one of the five lower-case class names, and it then gives that variant |
| Rockets.LowerKindName | rockets.py:198-209 | each variant's class name lower-cases to the literal that `add_engine` compares against |
| Rockets.KindNamesAreRecognised | rockets.py:198-209 | every variant's class name selects that variant |
| Rockets.Command | rockets.py:269-272 | a prediction below 0.5 kills the engine, otherwise it thrusts with its ratio clamped; the angle is kept |
| Rockets.Commanded | rockets.py:269-272 | the i-th prediction commands the i-th engine; engines without a prediction are untouched |
| Rockets.CommandIsIdempotent | rockets.py:269-272 | applying the same predictions twice is applying them once |
| Rockets.Rocket.constructor | rockets.py:139-150 | a new rocket holds its parameters, starts with a full tank and no engines, and satisfies its invariant |
| Rockets.Rocket.Default | rockets.py:135-150 | the default rocket is 20 m long, has a 180 kg fuselage and 2000 kg of fuel, and is at rest at the origin |
| Rockets.Rocket.AddEngine | rockets.py:195-213 | an Engine object is appended; a recognised name appends a fresh engine of that variant, idle at its initial angle; any other argument changes nothing |
| Rockets.Rocket.Fire | rockets.py:218-240 | the Bully override and the engine loop leave every engine burned as `Burns` of `Override` says, and return the step's allocation totals `StepTotals` |
| Rockets.Rocket.Fly | rockets.py:241-258 | the motion becomes the integrated and grounded motion, the tank loses what was consumed (never below 0), and an empty tank kills every engine |
| Rockets.Rocket.Integrate | rockets.py:243-251 | position, velocity, angle and angular velocity are advanced by one timestep of `Dynamics.Integrate` |
| Rockets.Rocket.Settle | rockets.py:252-258 | updates the tank, kills every engine on an empty tank, and clamps the rocket at the ground |
| Rockets.Rocket.Step | rockets.py:217-260 | a step leaves the rocket exactly in the state `StepFlight` computes from the old state, returns its global thrust vector, and keeps the rocket's invariant |
| Rockets.Rocket.ControllerInputs | rockets.py:263-265 | the controller sees each engine's current ratio in order, and a fuel fraction in [0,1] |
| Rockets.Rocket.Control | rockets.py:262-272 | without a controller nothing changes; otherwise the engines take `Commanded` of their old states; the call fails exactly on an empty initial tank or on more predictions than engines |
| Rockets.OverrideEach | rockets.py:222-225 | the Bully loops leave the engines in the states `Override` gives |
| Rockets.BurnEach | rockets.py:226-240 | the engine loop leaves every engine burned as `Burns` says and returns `Allocate` of the engines' demands |
| Rockets.BurnEngine | rockets.py:227-229 | `step`, `consume_fuel` and `thrust_components` on one engine compute `EngineBurn` |
| Rockets.KillEach | rockets.py:253-254 | the engines end in `KillAll` of their old states |
| Rockets.CommandEach | rockets.py:269-272 | the engines end in `Commanded` of their old states |
| FileManager.Code | file_manager.py:9-32 | the engine code always has five characters |
| FileManager.EngineCode | file_manager.py:9-32 | the code built with `+=` is `Code` of the names |
| FileManager.CodeMarksPresentEngines | file_manager.py:10-31 | each position holds its own letter or '-', and its letter exactly when some input name, lower-cased, is that variant's class name |
| FileManager.CodeIgnoresOrderAndDuplicates | file_manager.py:10-31 | two name lists with the same members give the same code, whatever their order and repetitions |
| FileManager.IsEngineCode | file_manager.py:50-58 | `is_engine_code`: true exactly for a string of five characters each of which lower-cases to one of - b p g u d (properties in `EngineCodeIgnoresCase`, `CodeIsEngineCode`, `CanonicalCodesAreEngineCodes`, `LowerCaseCodeNamesNothing`) |
| FileManager.EngineCodeIgnoresCase | file_manager.py:50-58 | the validator gives the same verdict on a string and its lower-cased form |
| FileManager.CodeIsEngineCode | file_manager.py:9-58 | every code the encoder writes passes the validator |
| FileManager.EngineNamesFromCode | file_manager.py:34-47 | the names appended one variant at a time are `NamesFromCode` of the code |
| FileManager.DecodedKinds | file_manager.py:36-46 | a variant is decoded exactly when its upper-case letter occurs anywhere in the code |
| FileManager.DecodedInCodeOrder | file_manager.py:34-47 | decoded variants come in the order Bully, Patient, Greedy, UpSteering, DownSteering |
| FileManager.DecodedNamesAreDistinct | file_manager.py:34-47 | no decoded name appears twice |
| FileManager.DecodedNames | file_manager.py:34-47 | a class name is decoded exactly when its variant's letter occurs in the code |
| FileManager.DecodeEncode | file_manager.py:9-47 | decoding an encoded list gives the recognised names of the input, each once, in code order |
| FileManager.EncodeDecode | file_manager.py:9-47 | for a canonical code (each position its own letter or '-'), encoding the decoded names gives the code back |
| FileManager.CanonicalCodesAreEngineCodes | file_manager.py:50-58 | canonical codes pass the validator |
| FileManager.LowerCaseCodeNamesNothing | file_manager.py:34-58 | "b----" passes the validator yet decodes to no engine at all |
| PyStrings.ParseInt | main.py:28-30 | Python's `int()` on a string: an optional sign then decimal digits, `None` for the ValueError; an unsigned or '+'-signed string never reads negative |
| PyStrings.ParseIntString | main.py:28-30 | `int(str(n)) == n` for every integer n |
| PyStrings.Split | main.py:28 | `split(sep)` gives at least one piece, and no piece holds the separator |
| Generations.FolderFitness | main.py:26-31 | `get_fitness_from_folder_name`: a name holding '-' anywhere never reads as a positive fitness (round trip in `FitnessOfFolderName`, hyphen cases in `HyphenInFitness`, `HyphenInId`) |
| Generations.FolderEntry | main.py:55-61 | when a name parses to an entry, the fitness-only parser gives the same fitness |
| Generations.FitnessOfFolderName | main.py:26-31 | the fitness-only parser reads back the fitness of every name "<fitness>_<id>", negative fitnesses included |
| Generations.FolderNameRoundTrip | main.py:55-61 | both parsers read back the fitness and the ID of every name "<fitness>_<id>" |
| Generations.HyphenInFitness | main.py:56-57 | a '-' after the first digit switches to the negative reading: "3-4_1" parses as fitness -4, ID 1 |
| Generations.HyphenInId | main.py:55-61 | the '-' test looks at the whole name: "12_-3" fails in both parsers |
| Generations.IndividualFolders | main.py:54 | the kept folders are exactly those whose name holds '_' and no "store" in any letter case |
| Generations.IndividualFoldersKeepAll | main.py:54 | a listing whose every folder qualifies is returned unchanged, in its order |
| Generations.IndividualFoldersKeepOrder | main.py:54 | the filter keeps listing order: filtering a concatenation concatenates the filtered parts |
| Generations.ParseAll | main.py:62 | parsing succeeds exactly when every name parses, and then gives each name's entry in order; otherwise it fails on a name that does not parse |
| Generations.ParseFitnesses | main.py:32 | the fitness list exists exactly when every name's fitness parses, and then gives each in order |
| Generations.GenerationFitnesses | main.py:25-32 | a generation's fitness list exists exactly when every individual folder's fitness parses |
| Generations.FitnessParsersAgree | main.py:26-61 | when the summary's parser accepts every folder, `fitness` reads the same fitnesses in the same order |
| Generations.SortByFitness | main.py:62 | `sorted(..., key=fitness)` as a stable insertion sort; the result is a permutation of its input (order and stability in `SortIsStableSort`) |
| Generations.Insert | main.py:62 | inserting adds exactly the one entry (as a multiset) |
| Generations.InsertKeepsOrder | main.py:62 | inserting into a list sorted by fitness keeps it sorted |
| Generations.InsertIsStable | main.py:62 | the inserted entry goes behind every entry of equal fitness |
| Generations.SortIsStableSort | main.py:62 | the sort orders by fitness, is a permutation of its input, and keeps the input order among equal fitnesses |
| Generations.Quartiles | main.py:63-67 | the minimum is the first sorted entry and the maximum the last |
| Generations.QuartilesAreOrdered | main.py:62-67 | on a sorted non-empty list, the indices 0, n//4, n//2, 3n//4 and n−1 give min ≤ Q1 ≤ median ≤ Q3 ≤ max |
| Generations.Summarize | main.py:52-73 | `summarize_generation`: the filtered listing is parsed, sorted by fitness and reduced to the entries at 0, n//4, n//2, 3n//4 and n−1; its guarantees are `SummaryIsOrdered`, `SummaryComesFromFolders` and `SummaryFailures` |
| Generations.SummaryIsOrdered | main.py:54-67 | a summary's five fitnesses are ordered, and its minimum and maximum bound every individual folder's fitness |
| Generations.SummaryComesFromFolders | main.py:54-73 | every reported entry is the parse of some individual folder in the listing |
| Generations.SummaryFailures | main.py:54-63 | the summary fails for an empty generation exactly when no folder is an individual folder, and on an unreadable name exactly when some individual folder does not parse |

## Left out

- Floating point: every float is an exact real, so rounding, overflow and NaN are not modelled.
- `sin`, `cos`, `log` and `sqrt` are parameters, not these functions themselves. Lemmas that need one of their laws ask for it as a precondition (`Pythagorean`, `LogIsIncreasing`).
- Randomness is a parameter:
  - `np.random.normal` in `Engine.step` (rockets.py:55) is one jitter per engine;
  - the sensor noise of rockets.py:164-174 is the `Noise` record.
  - The distributions themselves are not modelled. In particular the jitter's variance, `angle_variance` × `MAX_THRUST_ANGLE_VARIANCE` (π/18000, rockets.py:18, 55), does not bound the jitter, which may be any real.
- Everything printed is left out: the crash report (rockets.py:259), the `add_engine` messages (rockets.py:211, 213) and the summary (main.py:68-72). Only the division inside the crash message is kept, as `ok` in `Rocket.Step`.
- Engines.Engine.constructor: requires a well-formed specification (positive ramp time and efficiency, mass and thrust not negative, mount point on the fuselage) and builds only plain engines. Python accepts any numbers, and a zero ramp time or efficiency divides by zero in `step` or `consume_fuel`.
- Rockets.Rocket.AddEngine: it requires an added Engine object to be well formed and not attached already. Python allows aliasing the same engine twice, and engines with a non-positive time to maximum thrust or efficiency. The model excludes both, so that distinct engines can be updated one at a time.
- Rockets.Rocket.constructor: requires a positive length and mass and non-negative fuel. Python accepts any numbers, but a zero mass makes `step` divide by zero.
- Rockets.Rocket.Step: the centre of mass is computed once before the engine loop rather than in every iteration (rockets.py:230). No fuel changes inside the loop, so the value is the same.
- Rockets.Rocket.Control: the controller itself (`controller.predict`, a neural network) is left out; its prediction is an input. `ok == false` stands for the `ZeroDivisionError` at rockets.py:265 and the `IndexError` at rockets.py:271.
- `true_speed` (rockets.py:161-162) is `Sensors.TrueSpeed`. It is only the `sqrt` parameter applied to the squared velocities, and it has no lemma of its own.
- Generations.FolderFitness: Python's `int()` is modelled as an optional sign followed by ASCII digits. It does not strip whitespace, and it does not accept other Unicode digits or `_` digit separators.
- `lower()` changes only ASCII capitals, both in `add_engine` and in the "store" filter.
- `find_path`, `load_run`, `unpack_simulation_data`, `os.listdir`, `argparse`, plotting and the rest of `main.py` are filesystem and presentation code. `fitness()` is modelled only as far as the fitness list of one generation goes (`GenerationFitnesses`).
- physics.py is only constants. They are in module `Physics`, and `INITIAL_ROCKET_HEIGHT` is declared but no modelled code uses it.
