/** The fixed physical constants of the simulation. */
module Physics {

  /** Gravitational acceleration, m/s^2. */
  const GRAVITY: real := 9.81

  /** Length of one simulation step, s. */
  const TIMESTEP: real := 0.01

  /** Force produced per unit of fuel mass flow rate, N*s/kg (akin to specific impulse). */
  const FUEL_FORCE_PER_UNIT_MASS_FLOW_RATE: real := 250.0

  /** Height at which the trajectory driver starts a rocket, m. */
  const INITIAL_ROCKET_HEIGHT: real := 300.0
}
