/** The two CACC requirement checks over a simulation log: the minimum
    following distance and the steady-state relative speed error. Each one
    drops the setup rows at the head of the log, marks the rows that
    violate the requirement and reports exactly those rows, in log order. */
module CaccRequirements {
  import opened Numerics
  import opened SafeDistance

  /** Rows at the start of every log (0.1 s) that both checks ignore. */
  const SetupRows: nat := 10

  const AccelerationThreshold: real := 0.67
  const RelativeSpeedErrorThreshold: real := 0.1

  /** One logged time step: the columns the checks read. */
  datatype LogRow = LogRow(
    time: real,
    egoX: real,
    leadX: real,
    leadSpeed: real,
    egoAcceleration: real,
    brakePos: real,
    cavEnable: real,
    egoSpeed: real,
    egoSetSpeed: real)

  /** A log table; hasLeadX says whether it has the lead-vehicle x column
      (when it does not, every row's leadX is meaningless). A row's label is
      its position in rows. */
  datatype Log = Log(hasLeadX: bool, rows: seq<LogRow>)

  /** The outcome of one check. */
  datatype Verdict<F> = Skipped | Passed | Failed(failures: seq<F>)

  /** The two requirements; the distance one depends on the platform's pow. */
  datatype Requirement = MinimumFollowingDistance(pow: PowFn) | SteadyStateSpeedError

  /** The per-row failure condition of a requirement: the boolean mask. */
  predicate Violates(req: Requirement, row: LogRow)
  {
    match req
    case MinimumFollowingDistance(pow) => TooClose(row, pow)
    case SteadyStateSpeedError => SpeedErrorTooLarge(row)
  }

  /** The labels j >= from of the rows that violate req, in increasing
      order: the table filtered by the requirement's mask. */
  function Failing(rows: seq<LogRow>, from: nat, req: Requirement): (r: seq<nat>)
    ensures forall k :: 0 <= k < |r| ==> from <= r[k] < |rows| && Violates(req, rows[r[k]])
    ensures forall k, l :: 0 <= k < l < |r| ==> r[k] < r[l]
    ensures forall j :: from <= j < |rows| && Violates(req, rows[j]) ==> j in r
    decreases |rows| - from
  {
    if from >= |rows| then []
    else if Violates(req, rows[from]) then [from] + Failing(rows, from + 1, req)
    else Failing(rows, from + 1, req)
  }

  // ---- minimum following distance ----

  function FollowingDistance(row: LogRow): real
  {
    row.leadX - row.egoX
  }

  /** The competition's closest following distance for the lead car's speed. */
  function NeededDistance(row: LogRow, pow: PowFn): real
  {
    MinSafeDistance(row.leadSpeed * MphPerMps, pow)
  }

  predicate TooClose(row: LogRow, pow: PowFn)
  {
    FollowingDistance(row) < NeededDistance(row, pow)
  }

  /** One line of the distance failure report. */
  datatype DistanceFailure = DistanceFailure(index: nat, time: real, distance: real, neededDistance: real)

  function DistanceRequirement(log: Log, pow: PowFn): (v: Verdict<DistanceFailure>)
    ensures v.Skipped? <==> !log.hasLeadX
    ensures v.Failed? <==>
      log.hasLeadX && exists j :: SetupRows <= j < |log.rows| && Violates(MinimumFollowingDistance(pow), log.rows[j])
    ensures v.Failed? ==> |v.failures| > 0
    ensures v.Failed? ==> forall k :: 0 <= k < |v.failures| ==>
      var f := v.failures[k];
      && SetupRows <= f.index < |log.rows|
      && Violates(MinimumFollowingDistance(pow), log.rows[f.index])
      && f == DistanceFailure(f.index, log.rows[f.index].time,
                              FollowingDistance(log.rows[f.index]), NeededDistance(log.rows[f.index], pow))
    ensures v.Failed? ==> forall k, l :: 0 <= k < l < |v.failures| ==> v.failures[k].index < v.failures[l].index
    ensures v.Failed? ==> forall j :: SetupRows <= j < |log.rows| && Violates(MinimumFollowingDistance(pow), log.rows[j]) ==>
      exists k :: 0 <= k < |v.failures| && v.failures[k].index == j
  {
    if !log.hasLeadX then Skipped
    else
      var idx := Failing(log.rows, SetupRows, MinimumFollowingDistance(pow));
      if |idx| == 0 then Passed
      else
        var failures := seq(|idx|, k requires 0 <= k < |idx| =>
          DistanceFailure(idx[k], log.rows[idx[k]].time,
                          FollowingDistance(log.rows[idx[k]]), NeededDistance(log.rows[idx[k]], pow)));
        assert Violates(MinimumFollowingDistance(pow), log.rows[idx[0]]);
        assert forall k :: 0 <= k < |idx| ==> failures[k].index == idx[k];
        Failed(failures)
  }

  // ---- steady-state relative speed error ----

  /** A quotient as pandas computes it on floats: x / 0 is infinite for a
      non-zero x and not a number for x == 0. */
  datatype Ratio = Finite(value: real) | Infinite | NotANumber

  /** |(set - speed) / set|. */
  function RelativeSpeedError(setSpeed: real, speed: real): Ratio
  {
    if setSpeed != 0.0 then Finite(Abs((setSpeed - speed) / setSpeed))
    else if speed != 0.0 then Infinite
    else NotANumber
  }

  /** `ratio > threshold` on floats: infinity exceeds every threshold and
      a NaN exceeds none. */
  predicate Exceeds(r: Ratio, threshold: real)
  {
    match r
    case Finite(value) => value > threshold
    case Infinite => true
    case NotANumber => false
  }

  /** The speed error exceeds 10% exactly when the speed is off the set
      speed by more than a tenth of the set speed's magnitude; a zero set
      speed fails for every non-zero speed. */
  lemma ExceedsWithoutDivision(setSpeed: real, speed: real)
    ensures Exceeds(RelativeSpeedError(setSpeed, speed), RelativeSpeedErrorThreshold)
        <==> Abs(setSpeed - speed) > RelativeSpeedErrorThreshold * Abs(setSpeed)
  {
    if setSpeed != 0.0 {
      QuotientExceeds(setSpeed - speed, setSpeed, RelativeSpeedErrorThreshold);
    }
  }

  /** |d / s| > t exactly when |d| > t |s|, for s != 0. */
  lemma QuotientExceeds(d: real, s: real, t: real)
    requires s != 0.0
    ensures Abs(d / s) > t <==> Abs(d) > t * Abs(s)
  {
  }

  /** Acceleration not changing much, no braking, and the CAV system on. */
  predicate SteadyState(row: LogRow)
  {
    Abs(row.egoAcceleration) <= AccelerationThreshold && row.brakePos == 0.0 && row.cavEnable == 1.0
  }

  predicate SpeedErrorTooLarge(row: LogRow)
  {
    SteadyState(row) && Exceeds(RelativeSpeedError(row.egoSetSpeed, row.egoSpeed), RelativeSpeedErrorThreshold)
  }

  /** One line of the speed-error failure report. */
  datatype SpeedFailure = SpeedFailure(index: nat, time: real, egoSpeed: real, targetSpeed: real, relativeError: Ratio)

  function SpeedErrorRequirement(log: Log): (v: Verdict<SpeedFailure>)
    ensures !v.Skipped?
    ensures v.Failed? <==> exists j :: SetupRows <= j < |log.rows| && Violates(SteadyStateSpeedError, log.rows[j])
    ensures v.Failed? ==> |v.failures| > 0
    ensures v.Failed? ==> forall k :: 0 <= k < |v.failures| ==>
      var f := v.failures[k];
      && SetupRows <= f.index < |log.rows|
      && Violates(SteadyStateSpeedError, log.rows[f.index])
      && f == SpeedFailure(f.index, log.rows[f.index].time, log.rows[f.index].egoSpeed, log.rows[f.index].egoSetSpeed,
                           RelativeSpeedError(log.rows[f.index].egoSetSpeed, log.rows[f.index].egoSpeed))
    ensures v.Failed? ==> forall k, l :: 0 <= k < l < |v.failures| ==> v.failures[k].index < v.failures[l].index
    ensures v.Failed? ==> forall j :: SetupRows <= j < |log.rows| && Violates(SteadyStateSpeedError, log.rows[j]) ==>
      exists k :: 0 <= k < |v.failures| && v.failures[k].index == j
  {
    var idx := Failing(log.rows, SetupRows, SteadyStateSpeedError);
    if |idx| == 0 then Passed
    else
      var failures := seq(|idx|, k requires 0 <= k < |idx| =>
        SpeedFailure(idx[k], log.rows[idx[k]].time, log.rows[idx[k]].egoSpeed, log.rows[idx[k]].egoSetSpeed,
                     RelativeSpeedError(log.rows[idx[k]].egoSetSpeed, log.rows[idx[k]].egoSpeed)));
      assert Violates(SteadyStateSpeedError, log.rows[idx[0]]);
      assert forall k :: 0 <= k < |idx| ==> failures[k].index == idx[k];
      Failed(failures)
  }

  /** A steady-state row past the setup rows whose set speed is zero while
      the car moves fails the speed-error check. */
  lemma ZeroSetSpeedFails(log: Log, j: nat)
    requires SetupRows <= j < |log.rows| && SteadyState(log.rows[j])
    requires log.rows[j].egoSetSpeed == 0.0 && log.rows[j].egoSpeed != 0.0
    ensures SpeedErrorRequirement(log).Failed?
  {
  }
}
