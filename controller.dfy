/** The cooperative adaptive cruise controller: on every time step it
    dead-reckons the ego car's position along the road and turns the error
    between the actual gap to the lead car and the minimum safe distance
    into either a drive torque or a brake deceleration, never both. */
module Controller {
  import opened Numerics
  import opened SafeDistance

  /** Length of one controller time step, in seconds. */
  const Interval: real := 0.01

  /** Newton-metres of torque per metre of gap error. */
  const PropGain: real := 500.0
  const MaxTorque: real := 5000.0
  /** Newton-metres of (negative) torque per m/s^2 of braking. */
  const TorqueToBrake: real := 3000.0
  const MaxBrake: real := 10.0
  /** Gap errors within this fraction of the safe distance are ignored. */
  const Deadband: real := 0.05

  /** What one controller step hands back: a torque in N m and a brake
      deceleration in m/s^2. */
  datatype Command = Command(torque: real, brake: real)

  /** The saturated proportional law applied to a raw gap error (actual gap
      minus safe distance) for the given safe distance. */
  function Actuation(gapError: real, minSafe: real): (c: Command)
    ensures 0.0 <= c.torque <= MaxTorque && 0.0 <= c.brake <= MaxBrake
    ensures c.torque == 0.0 || c.brake == 0.0
    ensures Abs(gapError) <= Deadband * minSafe ==> c == Command(0.0, 0.0)
    ensures Abs(gapError) > Deadband * minSafe && gapError > 0.0 ==>
      c == Command(Min(PropGain * gapError, MaxTorque), 0.0)
    ensures Abs(gapError) > Deadband * minSafe && gapError < 0.0 ==>
      c == Command(0.0, Min(-PropGain * gapError / TorqueToBrake, MaxBrake))
    ensures c.torque > 0.0 <==> gapError > 0.0 && gapError > Deadband * minSafe
    ensures c.brake > 0.0 <==> gapError < 0.0 && -gapError > Deadband * minSafe
  {
    var error := if Abs(gapError) <= Deadband * minSafe then 0.0 else gapError;
    var torque := PropGain * error;
    if torque >= 0.0 then Command(Min(torque, MaxTorque), 0.0)
    else Command(0.0, Min(-torque / TorqueToBrake, MaxBrake))
  }

  /** The command for one step, given the ego position after this step's
      dead reckoning. With no lead car the controller drives at full torque. */
  function StepCommand(leadExists: bool, leadYPos: real, leadYVel: real, egoYPos: real, pow: PowFn): (c: Command)
    ensures !leadExists ==> c == Command(MaxTorque, 0.0)
    ensures 0.0 <= c.torque <= MaxTorque && 0.0 <= c.brake <= MaxBrake
    ensures c.torque == 0.0 || c.brake == 0.0
  {
    if leadExists then
      Actuation(leadYPos - egoYPos - MinSafeDistance(leadYVel * MphPerMps, pow), MinSafeDistance(leadYVel * MphPerMps, pow))
    else
      Command(MaxTorque, 0.0)
  }

  /** For a non-negative safe distance: the controller accelerates exactly
      when the gap is more than 105% of the safe distance, brakes exactly
      when it is less than 95% of it, and coasts in between. */
  lemma BandOfSafeDistance(actualGap: real, minSafe: real)
    requires 0.0 <= minSafe
    ensures Actuation(actualGap - minSafe, minSafe).torque > 0.0 <==> actualGap > 1.05 * minSafe
    ensures Actuation(actualGap - minSafe, minSafe).brake > 0.0 <==> actualGap < 0.95 * minSafe
    ensures 0.95 * minSafe <= actualGap <= 1.05 * minSafe ==>
      Actuation(actualGap - minSafe, minSafe) == Command(0.0, 0.0)
  {
  }

  /** A larger gap error never yields less torque nor more braking. */
  lemma ActuationMonotone(e1: real, e2: real, minSafe: real)
    requires e1 <= e2
    ensures Actuation(e1, minSafe).torque <= Actuation(e2, minSafe).torque
    ensures Actuation(e1, minSafe).brake >= Actuation(e2, minSafe).brake
  {
  }

  /** With a lead car moving forward (under any pow that is non-negative on
      non-negative bases), the safe distance is at least the standstill
      distance, so a gap below 7.6 m (95% of 8 m) always brakes. */
  lemma CloseLeadBrakes(leadYPos: real, leadYVel: real, egoYPos: real, pow: PowFn)
    requires NonNegativeOnNonNegative(pow) && 0.0 <= leadYVel
    requires leadYPos - egoYPos < 0.95 * StandstillDistance
    ensures StepCommand(true, leadYPos, leadYVel, egoYPos, pow).brake > 0.0
    ensures StepCommand(true, leadYPos, leadYVel, egoYPos, pow).torque == 0.0
  {
  }

  class CaccController {
    /** Set once by the constructor and never read or changed afterwards. */
    var x: int
    /** The ego car's position along the road, integrated from its speed. */
    var egoYPos: real

    constructor()
      ensures x == 10 && egoYPos == 0.0
    {
      x := 10;
      egoYPos := 0.0;
    }

    /** One controller step. setSpeed and the lead car's x position and x
        velocity are accepted but unused. */
    method ControllerStep(setSpeed: real, egoSpeed: real, leadExists: bool,
                          leadXPos: real, leadXVel: real, leadYPos: real, leadYVel: real, pow: PowFn)
      returns (torqueCommand: real, brakeCommand: real)
      modifies this`egoYPos
      ensures egoYPos == old(egoYPos) + egoSpeed * Interval
      ensures x == old(x)
      ensures Command(torqueCommand, brakeCommand) == StepCommand(leadExists, leadYPos, leadYVel, egoYPos, pow)
    {
      egoYPos := egoYPos + egoSpeed * Interval;
      if leadExists {
        var leadSpeedMph := leadYVel * MphPerMps;
        var minSafeDistance := DistanceGain * pow(leadSpeedMph, SpeedExponent) + StandstillDistance;
        var actualGap := leadYPos - egoYPos;
        var gapError := actualGap - minSafeDistance;
        var acceptableErr := Deadband * minSafeDistance;
        if Abs(gapError) <= acceptableErr {
          gapError := 0.0;
        }
        var torque := PropGain * gapError;
        if torque >= 0.0 {
          torqueCommand := Min(torque, MaxTorque);
          brakeCommand := 0.0;
        } else {
          torqueCommand := 0.0;
          brakeCommand := Min(-torque / TorqueToBrake, MaxBrake);
        }
      } else {
        torqueCommand := MaxTorque;
        brakeCommand := 0.0;
      }
    }
  }
}
