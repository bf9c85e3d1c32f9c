/** The randomized highway drive-cycle generator: a fixed-step loop that
    keeps a speed inside [0, maxSpeed], switches between free-flow and dense
    traffic at whole seconds, and records one (time, speed) row per step.

    The random source is injected: `densities` holds the successive results
    of randint(0, 1), consumed one per crossed second, and `uniforms` holds
    the successive random() values in [0, 1] behind each uniform(a, b),
    consumed one per step. */
module CycleGenerator {
  import opened Numerics

  // Acceleration ranges (m/s^2)
  const StartFast: real := 0.0
  const EndFast: real := 10.0
  const StartSlow: real := -10.0
  const EndSlow: real := 5.0

  const MaxSpeed: real := 30.0
  const Interval: real := 0.01
  const GenerationRange: real := 700.0

  /** Number of loop iterations: GenerationRange / Interval. */
  const Iterations: nat := 70000
  /** Number of density re-draws: one at each of the seconds 1 .. 699. */
  const Redraws: nat := 699

  datatype Row = Header(timeLabel: string, speedLabel: string) | Sample(time: real, speed: real)

  const HeaderRow: Row := Header("Time", "Speed (m/s)")

  predicate ValidDraws(densities: seq<int>, uniforms: seq<real>)
  {
    && |densities| == Redraws
    && |uniforms| == Iterations
    && (forall k :: 0 <= k < |densities| ==> densities[k] == 0 || densities[k] == 1)
    && (forall k :: 0 <= k < |uniforms| ==> 0.0 <= uniforms[k] <= 1.0)
  }

  /** random.uniform(a, b) is a + (b - a) * random(); u is the random() value. */
  function Uniform(a: real, b: real, u: real): (r: real)
    requires a <= b && 0.0 <= u <= 1.0
    ensures a <= r <= b
  {
    var width := b - a;
    FractionOf(width, u);
    a + width * u
  }

  /** The acceleration of one step: from the dense range when the flag is
      set, from the free-flow range otherwise. */
  function Acceleration(isDense: int, u: real): (a: real)
    requires 0.0 <= u <= 1.0
    ensures isDense != 0 ==> StartSlow <= a <= EndSlow
    ensures isDense == 0 ==> StartFast <= a <= EndFast
  {
    if isDense != 0 then Uniform(StartSlow, EndSlow, u) else Uniform(StartFast, EndFast, u)
  }

  /** The speed update of one step. A proposal outside [0, MaxSpeed] is
      rejected outright: the speed is kept, never cut to the bound. */
  function Integrate(speed: real, acceleration: real): (s: real)
    ensures s == speed || s == speed + acceleration * Interval
    ensures 0.0 <= s - speed <= acceleration * Interval || acceleration * Interval <= s - speed <= 0.0
    ensures 0.0 <= speed <= MaxSpeed ==> 0.0 <= s <= MaxSpeed
    ensures !(0.0 <= speed + acceleration * Interval <= MaxSpeed) ==> s == speed
    ensures 0.0 <= speed + acceleration * Interval <= MaxSpeed ==> s == speed + acceleration * Interval
  {
    var accelIntegration := acceleration * Interval;
    if 0.0 <= speed + accelIntegration <= MaxSpeed then speed + accelIntegration else speed
  }

  /** Near the top speed a full-throttle step is rejected, not clipped to 30. */
  lemma RejectNotClip()
    ensures Integrate(29.95, 10.0) == 29.95
    ensures Integrate(0.05, -10.0) == 0.05
  {
  }

  /** The first step always runs in free flow; with a draw in the upper
      half of [0, 1) its update is accepted and records 0.1 m/s. */
  lemma FirstStepRecordsOneTenth(densities: seq<int>, uniforms: seq<real>)
    requires ValidDraws(densities, uniforms) && 0.5 < uniforms[0] < 1.0
    ensures Run(1, densities, uniforms).speed == 0.1
  {
    BoundaryAt(0);
    var a := Acceleration(0, uniforms[0]);
    assert 5.0 < a < 10.0;
    var speed := Integrate(0.0, a);
    assert 0.5 < speed * 10.0 < 1.0;
    assert (speed * 10.0).Floor == 0;
    assert Scale(1) == 10.0;
  }

  /** Rounding to one decimal keeps a speed in [0, MaxSpeed], since both
      bounds are whole tenths. */
  lemma RoundKeepsSpeedRange(x: real)
    ensures 0.0 <= x <= MaxSpeed ==> 0.0 <= Round(x, 1) <= MaxSpeed
  {
  }

  /** A whole second has just been crossed: int(t) != int(t - interval). */
  predicate Boundary(t: real)
  {
    Trunc(t) != Trunc(t - Interval)
  }

  /** At the i-th step (time i hundredths) a second boundary is crossed
      exactly when i is a positive multiple of 100; because int() truncates,
      there is none at t = 0. */
  lemma BoundaryAt(i: nat)
    ensures Boundary(i as real * Interval) <==> i > 0 && i % 100 == 0
  {
    TruncHundredths(i);
    if i > 0 {
      assert i as real * Interval - Interval == (i - 1) as real * Interval;
      TruncHundredths(i - 1);
    } else {
      assert Trunc(0.0 - Interval) == 0;
    }
  }

  /** Density re-draws made during the first n steps. */
  function Crossings(n: nat): nat
  {
    if n == 0 then 0 else (n - 1) / 100
  }

  /** The generator's state between steps: the module-level variables of
      the script (current_time, Speed, isDense, data) and the number of
      density draws consumed so far. */
  datatype Gen = Gen(time: real, speed: real, isDense: int, redraws: nat, data: seq<Row>)

  const Start: Gen := Gen(0.0, 0.0, 0, 0, [HeaderRow])

  /** One iteration of the generation loop. */
  function Step(g: Gen, densities: seq<int>, u: real): (g': Gen)
    requires Boundary(g.time) ==> g.redraws < |densities|
    requires 0.0 <= u <= 1.0
    ensures g'.isDense != g.isDense ==> Boundary(g.time)
    ensures Boundary(g.time) ==> g'.isDense == densities[g.redraws] && g'.redraws == g.redraws + 1
    ensures !Boundary(g.time) ==> g'.redraws == g.redraws
    ensures g'.speed == Round(Integrate(g.speed, Acceleration(g'.isDense, u)), 1)
    ensures g'.time == Round(g.time, 3) + Interval
    ensures g'.data == g.data + [Sample(Round(g.time, 3), g'.speed)]
    ensures 0.0 <= g.speed <= MaxSpeed ==> 0.0 <= g'.speed <= MaxSpeed
    ensures IsIntegral(g'.speed * 10.0)
  {
    var boundary := Boundary(g.time);
    var isDense := if boundary then densities[g.redraws] else g.isDense;
    var redraws := if boundary then g.redraws + 1 else g.redraws;
    var speed := Integrate(g.speed, Acceleration(isDense, u));
    var time := Round(g.time, 3);
    RoundTenths(speed);
    RoundKeepsSpeedRange(speed);
    Gen(time + Interval, Round(speed, 1), isDense, redraws, g.data + [Sample(time, Round(speed, 1))])
  }

  /** The state after the first n steps: a reference definition of the
      loop, one Step per iteration. */
  function Run(n: nat, densities: seq<int>, uniforms: seq<real>): (g: Gen)
    requires n <= Iterations && ValidDraws(densities, uniforms)
    ensures g.time == n as real * Interval
    ensures g.redraws == Crossings(n)
    ensures 0.0 <= g.speed <= MaxSpeed
    ensures IsIntegral(g.speed * 10.0)
    ensures g.isDense == 0 || g.isDense == 1
    ensures |g.data| == n + 1 && g.data[0] == HeaderRow
    decreases n
  {
    if n == 0 then
      FloorOfInteger(0);
      Start
    else
      var g := Run(n - 1, densities, uniforms);
      BoundaryAt(n - 1);
      TimeOnGrid(n - 1);
      Step(g, densities, uniforms[n - 1])
  }

  /** Step times are whole hundredths, so round(t, 3) leaves them alone. */
  lemma TimeOnGrid(i: nat)
    ensures Round(i as real * Interval, 3) == i as real * Interval
  {
    assert (i as real * Interval) * 1000.0 == (10 * i) as real;
    FloorOfInteger(10 * i);
    RoundThousandthsOnGrid(i as real * Interval);
  }

  /** The regime used at step i (the flag after that step's possible
      re-draw): free flow for the whole first second, then the draw made at
      the start of the current second. */
  lemma {:induction false} DensityDuringStep(i: nat, densities: seq<int>, uniforms: seq<real>)
    requires i < Iterations && ValidDraws(densities, uniforms)
    ensures Run(i + 1, densities, uniforms).isDense == if i < 100 then 0 else densities[i / 100 - 1]
    decreases i
  {
    BoundaryAt(i);
    if i > 0 && i % 100 != 0 {
      DensityDuringStep(i - 1, densities, uniforms);
    }
  }

  /** Two steps in the same whole second use the same regime. */
  lemma SameSecondSameRegime(i: nat, j: nat, densities: seq<int>, uniforms: seq<real>)
    requires i < Iterations && j < Iterations && ValidDraws(densities, uniforms)
    requires Trunc(i as real * Interval) == Trunc(j as real * Interval)
    ensures Run(i + 1, densities, uniforms).isDense == Run(j + 1, densities, uniforms).isDense
  {
    TruncHundredths(i);
    TruncHundredths(j);
    assert i / 100 == j / 100;
    assert i < 100 <==> j < 100;
    DensityDuringStep(i, densities, uniforms);
    DensityDuringStep(j, densities, uniforms);
  }

  /** In free flow the acceleration is non-negative, so the recorded speed
      never drops (rounding cannot undo an increase from a whole tenth). */
  lemma FreeFlowNeverSlows(i: nat, densities: seq<int>, uniforms: seq<real>)
    requires i < Iterations && ValidDraws(densities, uniforms)
    requires Run(i + 1, densities, uniforms).isDense == 0
    ensures Run(i, densities, uniforms).speed <= Run(i + 1, densities, uniforms).speed
  {
    var g := Run(i, densities, uniforms);
    BoundaryAt(i);
    var isDense := Run(i + 1, densities, uniforms).isDense;
    var speed := Integrate(g.speed, Acceleration(isDense, uniforms[i]));
    assert Run(i + 1, densities, uniforms).speed == Round(speed, 1);
    RoundTenthsMonotone(g.speed, speed);
    RoundTenthsOnGrid(g.speed);
  }

  /** The recorded speed moves by at most one tenth per step. */
  lemma SpeedStepAtMostOneTenth(i: nat, densities: seq<int>, uniforms: seq<real>)
    requires i < Iterations && ValidDraws(densities, uniforms)
    ensures -0.1 <= Run(i + 1, densities, uniforms).speed - Run(i, densities, uniforms).speed <= 0.1
  {
    var g := Run(i, densities, uniforms);
    BoundaryAt(i);
    var isDense := Run(i + 1, densities, uniforms).isDense;
    var speed := Integrate(g.speed, Acceleration(isDense, uniforms[i]));
    assert Run(i + 1, densities, uniforms).speed == Round(speed, 1);
    var acceleration := Acceleration(isDense, uniforms[i]);
    assert -10.0 <= acceleration <= 10.0;
    assert g.speed - 0.1 <= speed <= g.speed + 0.1;
    var n := (g.speed * 10.0).Floor;
    assert (g.speed - 0.1) * 10.0 == (n - 1) as real;
    assert (g.speed + 0.1) * 10.0 == (n + 1) as real;
    FloorOfInteger(n - 1);
    FloorOfInteger(n + 1);
    RoundTenthsWithin(speed, g.speed - 0.1, g.speed + 0.1);
  }

  /** A second boundary at step n (0 < n < Iterations) consumes the draw
      with index n / 100 - 1, which exists. */
  lemma CrossingsAtBoundary(n: nat)
    requires 0 < n < Iterations && n % 100 == 0
    ensures Crossings(n) == n / 100 - 1 < Redraws
  {
  }

  /** Row k + 1 of the table (after the header) is the sample of step k:
      time k hundredths, and the speed that step produced. Later steps only
      append. */
  lemma {:induction false} RowAt(n: nat, k: nat, densities: seq<int>, uniforms: seq<real>)
    requires k < n <= Iterations && ValidDraws(densities, uniforms)
    ensures Run(n, densities, uniforms).data[k + 1] == Sample(k as real * Interval, Run(k + 1, densities, uniforms).speed)
    decreases n
  {
    BoundaryAt(n - 1);
    if k < n - 1 {
      RowAt(n - 1, k, densities, uniforms);
    } else {
      TimeOnGrid(k);
    }
  }

  /** The table after n steps: header first, then rows whose times step by
      one interval from 0, and whose speeds stay in [0, MaxSpeed]. */
  lemma TableInRange(n: nat, densities: seq<int>, uniforms: seq<real>)
    requires n <= Iterations && ValidDraws(densities, uniforms)
    ensures var data := Run(n, densities, uniforms).data;
      && (forall k :: 1 <= k < |data| ==>
            data[k].Sample? && 0.0 <= data[k].speed <= MaxSpeed && data[k].time == (k - 1) as real * Interval)
      && (forall k :: 1 <= k < |data| ==> data[k].time < GenerationRange)
      && (forall j, k :: 1 <= j < k < |data| ==> data[j].time < data[k].time)
  {
  }

  /** The generation loop. It returns the table that is written out: the
      header, then one (time, speed) row per step, in generation order. */
  method Generate(densities: seq<int>, uniforms: seq<real>) returns (data: seq<Row>)
    requires ValidDraws(densities, uniforms)
    ensures data == Run(|uniforms|, densities, uniforms).data
    ensures |data| == Iterations + 1 && data[0] == HeaderRow
    ensures forall k :: 1 <= k < |data| ==>
      data[k].Sample? && 0.0 <= data[k].speed <= MaxSpeed && data[k].time == (k - 1) as real * Interval
    ensures forall k :: 1 <= k < |data| ==> data[k].time < GenerationRange
    ensures forall j, k :: 1 <= j < k < |data| ==> data[j].time < data[k].time
  {
    data := [HeaderRow];
    var currentTime, speed, isDense := 0.0, 0.0, 0;
    var d := 0;  // density draws consumed
    var n := 0;  // steps taken, one uniform draw each
    FloorOfInteger(0);
    while currentTime < GenerationRange
      invariant n <= Iterations
      invariant Gen(currentTime, speed, isDense, d, data) == Run(n, densities, uniforms)
      decreases Iterations - n
    {
      ghost var before := Run(n, densities, uniforms);
      BoundaryAt(n);
      TimeOnGrid(n);
      if Trunc(currentTime) != Trunc(currentTime - Interval) {
        CrossingsAtBoundary(n);
        isDense := densities[d];
        d := d + 1;
      }
      var acceleration := Acceleration(isDense, uniforms[n]);
      var accelIntegration := acceleration * Interval;
      if 0.0 <= speed + accelIntegration <= MaxSpeed {
        speed := speed + accelIntegration;
      }
      assert speed == Integrate(before.speed, acceleration);
      currentTime := Round(currentTime, 3);
      speed := Round(speed, 1);
      data := data + [Sample(currentTime, speed)];
      currentTime := currentTime + Interval;
      assert Gen(currentTime, speed, isDense, d, data) == Step(before, densities, uniforms[n]);
      n := n + 1;
    }
    assert n == |uniforms|;
    TableInRange(n, densities, uniforms);
  }
}
