/** The minimum safe following distance shared by the controller and the
    distance requirement: 2.8 * v^0.45 + 8 metres for a lead speed v in mph. */
module SafeDistance {

  /** The platform's pow(base, exponent). Only its sign on non-negative
      bases is relied upon. */
  type PowFn = (real, real) -> real

  ghost predicate NonNegativeOnNonNegative(pow: PowFn)
  {
    forall b: real, e: real :: 0.0 <= b ==> 0.0 <= pow(b, e)
  }

  /** Miles per hour in one metre per second. */
  const MphPerMps: real := 2.23694

  const DistanceGain: real := 2.8
  const SpeedExponent: real := 0.45
  const StandstillDistance: real := 8.0

  function MinSafeDistance(speedMph: real, pow: PowFn): (d: real)
    ensures NonNegativeOnNonNegative(pow) && 0.0 <= speedMph ==> StandstillDistance <= d
  {
    DistanceGain * pow(speedMph, SpeedExponent) + StandstillDistance
  }
}
