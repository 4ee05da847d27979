/** Graduated pressure over the real numbers: a band turns a usage ratio into a pressure, a moving
    average smooths it, and a tracker with run counters decides the state that is logged. */
module OverloadModel {
  import opened Prelude

  datatype Band = Band(scaling: real, saturation: real)

  const CGROUP_MEMORY := Band(0.80, 0.95)
  const HEAP := Band(0.80, 0.95)
  const CPU := Band(0.10, 0.50)
  const CONNECTIONS := Band(0.70, 0.95)
  const FILE_DESCRIPTORS := Band(0.70, 0.95)

  const SMOOTHING: real := 0.3
  const IDLE_CEILING: real := 0.000000001
  const SATURATED_FLOOR: real := 1.0 - 0.000000001
  const SUSTAINED_SAMPLES: nat := 3

  /** A usage ratio as it is read: absent, not a finite number, or a value. */
  datatype Ratio = Missing | NotFinite | Finite(value: real)

  datatype PressureState = Idle | Scaling | Saturated

  function FromPressure(p: real): PressureState {
    if p <= IDLE_CEILING then Idle else if p >= SATURATED_FLOOR then Saturated else Scaling
  }

  function BandPressure(usage: real, band: Band): real {
    if band.saturation <= band.scaling || usage <= band.scaling then 0.0
    else if usage >= band.saturation then 1.0
    else (usage - band.scaling) / (band.saturation - band.scaling)
  }

  predicate Sampled(ratio: Ratio) {
    ratio.Finite? && ratio.value >= 0.0
  }

  function StepResource(previous: Option<real>, ratio: Ratio, band: Band): (Option<real>, Option<bool>) {
    if !Sampled(ratio) then (previous, None)
    else
      var sample := BandPressure(ratio.value, band);
      var smoothed := if previous.None? then sample else previous.value + SMOOTHING * (sample - previous.value);
      (Some(smoothed), Some(sample >= SATURATED_FLOOR))
  }

  /** The tracker's memory of one resource. */
  datatype Track = Track(state: Option<PressureState>, saturatedRun: nat, clearRun: nat)

  function Classify(t: Track, smoothed: PressureState, raw: Option<bool>): (PressureState, nat, nat) {
    match raw
    case Some(true) =>
      var run := Min(t.saturatedRun + 1, U8_MAX);
      (if run >= SUSTAINED_SAMPLES || smoothed == Saturated || t.state == Some(Saturated) then Saturated else smoothed,
       run, 0)
    case Some(false) =>
      var run := Min(t.clearRun + 1, U8_MAX);
      (if t.state == Some(Saturated) && smoothed != Saturated && run < SUSTAINED_SAMPLES then Saturated else smoothed,
       0, run)
    case None => (smoothed, t.saturatedRun, t.clearRun)
  }

  function RecordSample(t: Track, pressure: real, raw: Option<bool>): Track {
    var (state, saturatedRun, clearRun) := Classify(t, FromPressure(pressure), raw);
    Track(Some(state), saturatedRun, clearRun)
  }
}

/** Every run of one resource's gauge together with its tracker. */
module OverloadRuns {
  import opened Prelude
  import opened OverloadModel

  datatype Gauge = Gauge(pressure: Option<real>, track: Track)

  const FRESH := Gauge(None, Track(None, 0, 0))

  /** One sampling round: fold the ratio, then update the tracker unless nothing was ever sampled. */
  function Round(g: Gauge, ratio: Ratio, band: Band): Gauge {
    var (pressure, raw) := StepResource(g.pressure, ratio, band);
    Gauge(pressure, if pressure.None? then g.track else RecordSample(g.track, pressure.value, raw))
  }

  function Run(g: Gauge, ratios: seq<Ratio>, band: Band): Gauge {
    if ratios == [] then g else Round(Run(g, ratios[..|ratios| - 1], band), ratios[|ratios| - 1], band)
  }

  /** A round that brings a sample: a finite ratio that is not negative. */
  predicate IsSample(ratio: Ratio) {
    ratio.Finite? && ratio.value >= 0.0
  }

  /** A sample at the saturation threshold. */
  predicate RawSaturated(ratio: Ratio, band: Band) {
    IsSample(ratio) && BandPressure(ratio.value, band) >= 0.999999999
  }

  /** How many of the latest samples, passing over missed rounds, were all saturated, or all clear. */
  function Trailing(ratios: seq<Ratio>, band: Band, saturated: bool): nat {
    if ratios == [] then 0
    else
      var p, r := ratios[..|ratios| - 1], ratios[|ratios| - 1];
      if !IsSample(r) then Trailing(p, band, saturated)
      else if RawSaturated(r, band) != saturated then 0
      else 1 + Trailing(p, band, saturated)
  }

  // ---------------------------------------------------------------------------------------
  // The gauge
  // ---------------------------------------------------------------------------------------

  lemma FractionInUnit(a: real, b: real)
    requires 0.0 <= a <= b && b > 0.0
    ensures 0.0 <= a / b <= 1.0
  {
  }

  lemma BandInUnit(usage: real, band: Band)
    ensures 0.0 <= BandPressure(usage, band) <= 1.0
  {
    if band.scaling < usage < band.saturation {
      FractionInUnit(usage - band.scaling, band.saturation - band.scaling);
    }
  }

  lemma FractionGrows(a: real, b: real, d: real)
    requires a <= b && d > 0.0
    ensures a / d <= b / d
  {
    assert b / d - a / d == (b - a) / d;
  }

  /** A higher ratio never means a lower pressure, so taking the highest of several ratios is safe. */
  lemma BandIsMonotonic(u: real, v: real, band: Band)
    requires u <= v
    ensures BandPressure(u, band) <= BandPressure(v, band)
  {
    BandInUnit(u, band);
    BandInUnit(v, band);
    if band.scaling < u && v < band.saturation {
      FractionGrows(u - band.scaling, v - band.scaling, band.saturation - band.scaling);
    }
  }

  lemma Scaled(u: real, band: Band)
    requires band.scaling < band.saturation && band.scaling <= u <= band.saturation
    ensures BandPressure(u, band) * (band.saturation - band.scaling) == u - band.scaling
  {
    var d := band.saturation - band.scaling;
    if band.scaling < u < band.saturation {
      assert (u - band.scaling) / d * d == u - band.scaling;
    }
  }

  /** Inside the band pressure is linear: equal steps of the ratio are equal steps of the pressure, from 0
      where scaling begins, and below it, to 1 where saturation begins, and above it. */
  lemma BandIsLinear(u: real, v: real, band: Band)
    requires band.scaling < band.saturation
    ensures u <= band.scaling ==> BandPressure(u, band) == 0.0
    ensures u >= band.saturation ==> BandPressure(u, band) == 1.0
    ensures band.scaling <= u <= band.saturation && band.scaling <= v <= band.saturation ==>
              (BandPressure(v, band) - BandPressure(u, band)) * (band.saturation - band.scaling) == v - u
  {
    var d := band.saturation - band.scaling;
    if band.scaling <= u <= band.saturation && band.scaling <= v <= band.saturation {
      Scaled(u, band);
      Scaled(v, band);
      var bu, bv := BandPressure(u, band), BandPressure(v, band);
      assert (bv - bu) * d == bv * d - bu * d;
    }
  }

  /** Every sample moves the gauge three tenths of the way to its pressure, the first one all the way, and
      a round without a sample leaves it where it is. */
  lemma GaugeMoves(g: Gauge, r: Ratio, band: Band)
    ensures !IsSample(r) ==> Round(g, r, band).pressure == g.pressure
    ensures IsSample(r) && g.pressure.None? ==> Round(g, r, band).pressure == Some(BandPressure(r.value, band))
    ensures IsSample(r) && g.pressure.Some? ==>
              Round(g, r, band).pressure == Some(0.7 * g.pressure.value + 0.3 * BandPressure(r.value, band))
  {
    if IsSample(r) && g.pressure.Some? {
      var p, q := g.pressure.value, BandPressure(r.value, band);
      assert SMOOTHING * (q - p) == 0.3 * q - 0.3 * p;
    }
  }

  predicate InUnit(p: Option<real>) {
    p.Some? ==> 0.0 <= p.value <= 1.0
  }

  /** Whatever is sampled or missed, the smoothed pressure stays between 0 and 1. */
  lemma {:induction false} PressureStaysInUnit(g: Gauge, ratios: seq<Ratio>, band: Band)
    requires InUnit(g.pressure)
    ensures InUnit(Run(g, ratios, band).pressure)
  {
    if ratios == [] {
    } else {
      PressureStaysInUnit(g, ratios[..|ratios| - 1], band);
      if Sampled(ratios[|ratios| - 1]) {
        BandInUnit(ratios[|ratios| - 1].value, band);
      }
    }
  }

  function Pow(x: real, n: nat): real {
    if n == 0 then 1.0 else x * Pow(x, n - 1)
  }

  predicate AllSaturated(ratios: seq<Ratio>, band: Band) {
    band.scaling < band.saturation && forall i :: 0 <= i < |ratios| ==> IsSample(ratios[i]) && ratios[i].value >= band.saturation
  }

  lemma SaturatedStep(p: real, ratio: Ratio, band: Band)
    requires band.scaling < band.saturation && Sampled(ratio) && ratio.value >= band.saturation
    ensures StepResource(Some(p), ratio, band).0 == Some(1.0 - 0.7 * (1.0 - p))
  {
    assert BandPressure(ratio.value, band) == 1.0;
    assert SMOOTHING * (1.0 - p) == 0.3 * (1.0 - p);
  }

  /** Where `n` saturated samples take a gauge that stands at `p`. */
  function Approach(p: real, n: nat): real {
    1.0 - (1.0 - p) * Pow(0.7, n)
  }

  lemma ApproachStep(p: real, n: nat)
    ensures Approach(p, 0) == p && Approach(p, n + 1) == 1.0 - 0.7 * (1.0 - Approach(p, n))
  {
    var d, w := 1.0 - p, Pow(0.7, n);
    assert Pow(0.7, n + 1) == 0.7 * w;
    assert d * (0.7 * w) == 0.7 * (d * w);
  }

  /** Saturated samples close the distance to 1 by a factor of 0.7 each. */
  lemma {:induction false} SaturationApproach(g: Gauge, ratios: seq<Ratio>, band: Band)
    requires g.pressure.Some? && AllSaturated(ratios, band)
    ensures Run(g, ratios, band).pressure == Some(Approach(g.pressure.value, |ratios|))
  {
    if ratios == [] {
      ApproachStep(g.pressure.value, 0);
    } else {
      var n := |ratios| - 1;
      SaturationApproach(g, ratios[..n], band);
      SaturatedStep(Approach(g.pressure.value, n), ratios[n], band);
      ApproachStep(g.pressure.value, n);
    }
  }

  // ---------------------------------------------------------------------------------------
  // The tracker
  // ---------------------------------------------------------------------------------------

  predicate LoggedSaturated(g: Gauge) {
    g.track.state == Some(Saturated)
  }

  predicate AtFloor(g: Gauge) {
    g.pressure.Some? && g.pressure.value >= 0.999999999
  }

  /** The run counters are the trailing runs of samples, a state is logged once anything was sampled,
      and a gauge at the floor is always logged as saturated. */
  predicate Inv(g: Gauge, ratios: seq<Ratio>, band: Band) {
    && g.track.saturatedRun == Min(Trailing(ratios, band, true), U8_MAX)
    && g.track.clearRun == Min(Trailing(ratios, band, false), U8_MAX)
    && InUnit(g.pressure)
    && (g.pressure.None? <==> g.track.state.None?)
    && (g.pressure.None? ==> g == FRESH)
    && (AtFloor(g) ==> LoggedSaturated(g))
  }

  lemma RoundKeepsInv(g: Gauge, ratios: seq<Ratio>, r: Ratio, band: Band)
    requires Inv(g, ratios, band)
    ensures Inv(Round(g, r, band), ratios + [r], band)
  {
    assert (ratios + [r])[..|ratios|] == ratios;
    if Sampled(r) {
      BandInUnit(r.value, band);
      assert RawSaturated(r, band) ==> Trailing(ratios + [r], band, false) == 0;
      assert !RawSaturated(r, band) ==> Trailing(ratios + [r], band, true) == 0;
    }
  }

  lemma {:induction false} ReachableInv(ratios: seq<Ratio>, band: Band)
    ensures Inv(Run(FRESH, ratios, band), ratios, band)
  {
    if ratios == [] {
    } else {
      var n := |ratios| - 1;
      ReachableInv(ratios[..n], band);
      RoundKeepsInv(Run(FRESH, ratios[..n], band), ratios[..n], ratios[n], band);
      assert ratios[..n] + [ratios[n]] == ratios;
    }
  }

  /** The last round is a raw saturated sample that is the third in a row or brings the gauge to the
      floor. */
  predicate Enters(ratios: seq<Ratio>, r: Ratio, after: Gauge, band: Band) {
    RawSaturated(r, band) && (Trailing(ratios + [r], band, true) >= 3 || AtFloor(after))
  }

  /** The gauge is below the floor, and the last round is a miss or at least the third raw clear
      sample in a row. */
  predicate Leaves(ratios: seq<Ratio>, r: Ratio, after: Gauge, band: Band) {
    !AtFloor(after) && (IsSample(r) ==> Trailing(ratios + [r], band, false) >= 3)
  }

  lemma HysteresisStep(g: Gauge, ratios: seq<Ratio>, r: Ratio, band: Band)
    requires Inv(g, ratios, band)
    ensures !LoggedSaturated(g) ==> (LoggedSaturated(Round(g, r, band)) <==> Enters(ratios, r, Round(g, r, band), band))
    ensures LoggedSaturated(g) ==> (!LoggedSaturated(Round(g, r, band)) <==> Leaves(ratios, r, Round(g, r, band), band))
  {
    assert (ratios + [r])[..|ratios|] == ratios;
    RoundKeepsInv(g, ratios, r, band);
    if Sampled(r) {
      BandInUnit(r.value, band);
    }
  }

  /** In every run, missed rounds included, saturation is entered exactly on a raw saturated sample
      that is the third in a row or brings the gauge to the floor. It is left exactly when the gauge is
      below the floor and the round was missed or brought the third or a later raw clear sample in a
      row. Missed rounds neither count nor break a row. */
  lemma {:induction false} HysteresisIsExact(ratios: seq<Ratio>, r: Ratio, band: Band)
    ensures var before, after := Run(FRESH, ratios, band), Run(FRESH, ratios + [r], band);
            && (!LoggedSaturated(before) ==> (LoggedSaturated(after) <==> Enters(ratios, r, after, band)))
            && (LoggedSaturated(before) ==> (!LoggedSaturated(after) <==> Leaves(ratios, r, after, band)))
  {
    assert (ratios + [r])[..|ratios|] == ratios;
    ReachableInv(ratios, band);
    HysteresisStep(Run(FRESH, ratios, band), ratios, r, band);
  }

  /** In every run, a resource that is not logged as saturated is logged as idle exactly when its gauge is
      at most a billionth, and as scaling otherwise; one that was never sampled is not logged. */
  lemma {:induction false} LoggedStateIsExact(ratios: seq<Ratio>, band: Band)
    ensures var g := Run(FRESH, ratios, band);
            && (g.track.state.None? <==> g.pressure.None?)
            && (g.pressure.Some? && !LoggedSaturated(g) ==>
                  g.track.state == Some(if g.pressure.value <= 0.000000001 then Idle else Scaling))
  {
    ReachableInv(ratios, band);
    if ratios == [] {
    } else {
      LoggedStateIsExact(ratios[..|ratios| - 1], band);
    }
  }

  /** In every run, a sample that is the third raw saturated one in a row, or a later one, leaves
      saturation logged. */
  lemma {:induction false} ThreeInARowSaturate(ratios: seq<Ratio>, r: Ratio, band: Band)
    requires IsSample(r) && Trailing(ratios + [r], band, true) >= 3
    ensures LoggedSaturated(Run(FRESH, ratios + [r], band))
  {
    assert (ratios + [r])[..|ratios|] == ratios;
    HysteresisIsExact(ratios, r, band);
  }

  /** A stretch of missed rounds after any run changes neither the gauge nor the run counters, and
      leaves saturation logged exactly when the gauge stands at the floor. */
  lemma {:induction false} MissedRoundsFollowTheGauge(ratios: seq<Ratio>, missed: seq<Ratio>, band: Band)
    requires missed != [] && forall i :: 0 <= i < |missed| ==> !IsSample(missed[i])
    ensures var before, after := Run(FRESH, ratios, band), Run(FRESH, ratios + missed, band);
            && after.pressure == before.pressure
            && after.track.saturatedRun == before.track.saturatedRun && after.track.clearRun == before.track.clearRun
            && (LoggedSaturated(after) <==> AtFloor(before))
  {
    var n := |missed| - 1;
    assert (ratios + missed)[..|ratios + missed| - 1] == ratios + missed[..n];
    if n == 0 {
      assert ratios + missed[..n] == ratios;
      ReachableInv(ratios, band);
    } else {
      MissedRoundsFollowTheGauge(ratios, missed[..n], band);
      ReachableInv(ratios + missed[..n], band);
    }
  }

  /** A run in which one missed round ends a saturation although the latest samples, three in a row,
      were all saturated. */
  lemma MissedRoundCanDropSaturation()
    ensures var ratios := [Finite(0.0), Finite(1.0), Finite(1.0), Finite(1.0)];
            && LoggedSaturated(Run(FRESH, ratios, HEAP))
            && Trailing(ratios + [Missing], HEAP, true) == 3
            && !LoggedSaturated(Run(FRESH, ratios + [Missing], HEAP))
  {
    var r0, r1 := [Finite(0.0)], [Finite(0.0), Finite(1.0)];
    var r2, r3 := r1 + [Finite(1.0)], r1 + [Finite(1.0), Finite(1.0)];
    assert r1[..1] == r0 && r2[..2] == r1 && r3[..3] == r2 && (r3 + [Missing])[..4] == r3;
    assert r0[..0] == [];
    assert Run(FRESH, [], HEAP) == FRESH;
    assert Run(FRESH, r0, HEAP) == Gauge(Some(0.0), Track(Some(Idle), 0, 1));
    assert Run(FRESH, r1, HEAP) == Gauge(Some(0.3), Track(Some(Scaling), 1, 0));
    assert Run(FRESH, r2, HEAP) == Gauge(Some(0.51), Track(Some(Scaling), 2, 0));
    assert Run(FRESH, r3, HEAP) == Gauge(Some(0.657), Track(Some(Saturated), 3, 0));
    assert r3 == [Finite(0.0), Finite(1.0), Finite(1.0), Finite(1.0)];
    ReachableInv(r3, HEAP);
  }

  // ---------------------------------------------------------------------------------------
  // How far the log runs ahead of the gauge
  // ---------------------------------------------------------------------------------------

  lemma {:induction false} PowAdd(x: real, m: nat, n: nat)
    ensures Pow(x, m + n) == Pow(x, m) * Pow(x, n)
  {
    if m == 0 {
    } else {
      PowAdd(x, m - 1, n);
    }
  }

  lemma PowersOfPointSeven()
    ensures Pow(0.7, 1) == 0.7 && Pow(0.7, 2) == 0.49 && Pow(0.7, 8) == 0.05764801
    ensures Pow(0.7, 16) == 0.0033232930569601
  {
    PowAdd(0.7, 1, 1);
    PowAdd(0.7, 2, 2);
    PowAdd(0.7, 4, 4);
    PowAdd(0.7, 8, 8);
  }

  lemma FiftyNineIsTheFirst()
    ensures Pow(0.7, 58) > 0.000000001 >= Pow(0.7, 59)
  {
    PowersOfPointSeven();
    PowAdd(0.7, 16, 16);
    PowAdd(0.7, 32, 16);
    PowAdd(0.7, 48, 8);
    PowAdd(0.7, 56, 2);
    PowAdd(0.7, 1, 58);
  }

  lemma {:induction false} PowFalls(m: nat, n: nat)
    requires m <= n
    ensures 0.0 < Pow(0.7, n) <= Pow(0.7, m)
  {
    if n == 0 {
    } else {
      if m < n {
        PowFalls(m, n - 1);
      } else {
        PowFalls(n - 1, n - 1);
      }
    }
  }

  /** A gauge that stands at 0 has only ever seen samples at 0. */
  lemma {:induction false} ZeroIsIdle(ratios: seq<Ratio>, band: Band)
    requires Run(FRESH, ratios, band).pressure == Some(0.0)
    ensures var t := Run(FRESH, ratios, band).track; t.state == Some(Idle) && t.saturatedRun == 0
  {
    var n := |ratios| - 1;
    var p, r := ratios[..n], ratios[n];
    ReachableInv(p, band);
    var before := Run(FRESH, p, band);
    if Sampled(r) {
      BandInUnit(r.value, band);
      if before.pressure.Some? {
        assert before.pressure.value == 0.0;
        ZeroIsIdle(p, band);
      }
    } else {
      ZeroIsIdle(p, band);
    }
  }

  lemma {:induction false} CountsSaturatedSamples(start: Gauge, ratios: seq<Ratio>, band: Band)
    requires start.pressure == Some(0.0) && start.track.state == Some(Idle) && start.track.saturatedRun == 0
    requires AllSaturated(ratios, band)
    ensures var g := Run(start, ratios, band);
            g.track.saturatedRun == Min(|ratios|, U8_MAX) && (LoggedSaturated(g) <==> |ratios| >= 3)
  {
    if ratios == [] {
    } else {
      var n := |ratios|;
      CountsSaturatedSamples(start, ratios[..n - 1], band);
      SaturationApproach(start, ratios, band);
      assert Run(start, ratios, band) == Round(Run(start, ratios[..n - 1], band), ratios[n - 1], band);
      if n < 3 {
        FiftyNineIsTheFirst();
        PowFalls(n, 58);
      }
    }
  }

  lemma {:induction false} RunOn(g: Gauge, a: seq<Ratio>, b: seq<Ratio>, band: Band)
    ensures Run(g, a + b, band) == Run(Run(g, a, band), b, band)
  {
    if b == [] {
      assert a + b == a;
    } else {
      assert (a + b)[..|a + b| - 1] == a + b[..|b| - 1];
      RunOn(g, a, b[..|b| - 1], band);
    }
  }

  /** Once any run has the gauge at 0, it takes exactly 59 saturated samples to bring it to the floor,
      while the tracker logs saturation at the third. */
  lemma {:induction false} LogLeadsTheGauge(idle: seq<Ratio>, ratios: seq<Ratio>, band: Band)
    requires Run(FRESH, idle, band).pressure == Some(0.0) && AllSaturated(ratios, band)
    ensures var g := Run(FRESH, idle + ratios, band);
            && (AtFloor(g) <==> |ratios| >= 59)
            && (LoggedSaturated(g) <==> |ratios| >= 3)
  {
    var start := Run(FRESH, idle, band);
    RunOn(FRESH, idle, ratios, band);
    ZeroIsIdle(idle, band);
    SaturationApproach(start, ratios, band);
    FiftyNineIsTheFirst();
    if |ratios| >= 59 {
      PowFalls(59, |ratios|);
    } else {
      PowFalls(|ratios|, 58);
    }
    CountsSaturatedSamples(start, ratios, band);
  }
}

/** The monitor and the tracker as objects over the five resources. */
module Overload {
  import opened Prelude
  import opened OverloadModel
  import opened OverloadRuns

  const RESOURCES: seq<string> := ["cgroup_memory", "heap", "cpu", "connections", "file_descriptors"]
  const BANDS: seq<Band> := [CGROUP_MEMORY, HEAP, CPU, CONNECTIONS, FILE_DESCRIPTORS]

  class Monitor {
    var cgroupMemory: Option<real>
    var heap: Option<real>
    var cpu: Option<real>
    var connections: Option<real>
    var fileDescriptors: Option<real>
    var rawSaturated: seq<Option<bool>>

    function Pressures(): (ps: seq<Option<real>>)
      reads this
    {
      [cgroupMemory, heap, cpu, connections, fileDescriptors]
    }

    constructor ()
      ensures Pressures() == [None, None, None, None, None] && rawSaturated == [None, None, None, None, None]
    {
      cgroupMemory, heap, cpu, connections, fileDescriptors := None, None, None, None, None;
      rawSaturated := [None, None, None, None, None];
    }

    /** Every resource advances by its own ratio and band, and by nothing else. */
    method Fold(ratios: seq<Ratio>) returns (pressures: seq<Option<real>>)
      requires |ratios| == 5
      modifies this
      ensures pressures == Pressures() && |rawSaturated| == 5
      ensures forall i :: 0 <= i < 5 ==>
        (pressures[i], rawSaturated[i]) == StepResource(old(Pressures())[i], ratios[i], BANDS[i])
    {
      var cgroupRaw, heapRaw, cpuRaw, connectionsRaw, descriptorsRaw;
      var step := StepResource(cgroupMemory, ratios[0], CGROUP_MEMORY);
      cgroupMemory, cgroupRaw := step.0, step.1;
      step := StepResource(heap, ratios[1], HEAP);
      heap, heapRaw := step.0, step.1;
      step := StepResource(cpu, ratios[2], CPU);
      cpu, cpuRaw := step.0, step.1;
      step := StepResource(connections, ratios[3], CONNECTIONS);
      connections, connectionsRaw := step.0, step.1;
      step := StepResource(fileDescriptors, ratios[4], FILE_DESCRIPTORS);
      fileDescriptors, descriptorsRaw := step.0, step.1;
      rawSaturated := [cgroupRaw, heapRaw, cpuRaw, connectionsRaw, descriptorsRaw];
      pressures := Pressures();
    }
  }

  datatype Transition = Transition(resource: string, from: Option<PressureState>, to: PressureState, pressure: real)

  lemma Strictly(a: real, d: real)
    requires 0.0 < a < d
    ensures 0.0 < a / d < 1.0
  {
    assert d / d - a / d == (d - a) / d;
    assert d / d == 1.0 && (d - a) / d > 0.0;
  }

  /** Where each resource begins to scale and where it is saturated. */
  lemma BandEdges(i: nat)
    requires i < 5
    ensures |BANDS| == |RESOURCES| == 5
    ensures var scaling, saturation := [0.80, 0.80, 0.10, 0.70, 0.70], [0.95, 0.95, 0.50, 0.95, 0.95];
            && BandPressure(scaling[i], BANDS[i]) == 0.0 && BandPressure(saturation[i], BANDS[i]) == 1.0
            && forall u: real :: scaling[i] < u < saturation[i] ==> 0.0 < BandPressure(u, BANDS[i]) < 1.0
  {
    var band := BANDS[i];
    forall u: real | band.scaling < u < band.saturation
      ensures 0.0 < BandPressure(u, band) < 1.0
    {
      Strictly(u - band.scaling, band.saturation - band.scaling);
    }
  }

  /** The changes of logged state among the first `n` resources, in order. */
  function Changes(before: seq<Option<PressureState>>, after: seq<Option<PressureState>>, pressures: seq<Option<real>>,
                   n: nat): seq<Transition>
    requires n <= |before| && n <= |after| && n <= |pressures| && n <= |RESOURCES|
  {
    if n == 0 then []
    else
      var earlier := Changes(before, after, pressures, n - 1);
      if before[n - 1] != after[n - 1] && after[n - 1].Some? && pressures[n - 1].Some?
      then earlier + [Transition(RESOURCES[n - 1], before[n - 1], after[n - 1].value, pressures[n - 1].value)]
      else earlier
  }

  lemma {:induction false} ChangesDependOnPrefix(before: seq<Option<PressureState>>, a: seq<Option<PressureState>>,
                                                 b: seq<Option<PressureState>>, pressures: seq<Option<real>>, n: nat)
    requires n <= |before| && n <= |a| && n <= |b| && n <= |pressures| && n <= |RESOURCES|
    requires forall j :: 0 <= j < n ==> a[j] == b[j]
    ensures Changes(before, a, pressures, n) == Changes(before, b, pressures, n)
  {
    if n == 0 {
    } else {
      ChangesDependOnPrefix(before, a, b, pressures, n - 1);
    }
  }

  class TransitionTracker {
    const states: array<Option<PressureState>>
    const saturatedRun: array<nat>
    const clearRun: array<nat>

    ghost predicate Valid() {
      states.Length == saturatedRun.Length == clearRun.Length == 5 && saturatedRun != clearRun
    }

    function At(i: nat): Track
      requires i < states.Length && i < saturatedRun.Length && i < clearRun.Length
      reads states, saturatedRun, clearRun
    {
      Track(states[i], saturatedRun[i], clearRun[i])
    }

    constructor ()
      ensures Valid() && fresh(states) && fresh(saturatedRun) && fresh(clearRun)
      ensures forall i :: 0 <= i < 5 ==> At(i) == FRESH.track
    {
      states := new Option<PressureState>[5](_ => None);
      saturatedRun := new nat[5](_ => 0);
      clearRun := new nat[5](_ => 0);
    }

    /** Update one resource; a transition is reported exactly when its logged state changes. */
    method RecordSampleAt(i: nat, pressure: real, raw: Option<bool>) returns (transition: Option<Transition>)
      requires Valid() && i < 5
      modifies states, saturatedRun, clearRun
      ensures At(i) == RecordSample(old(At(i)), pressure, raw)
      ensures forall j :: 0 <= j < 5 && j != i ==> At(j) == old(At(j))
      ensures states[..] == old(states[..])[i := states[i]]
      ensures transition == if old(states[i]) == states[i] then None
        else Some(Transition(RESOURCES[i], old(states[i]), states[i].value, pressure))
    {
      var previous := states[i];
      var step := Classify(Track(previous, saturatedRun[i], clearRun[i]), FromPressure(pressure), raw);
      saturatedRun[i] := step.1;
      clearRun[i] := step.2;
      if previous == Some(step.0) {
        return None;
      }
      states[i] := Some(step.0);
      transition := Some(Transition(RESOURCES[i], previous, step.0, pressure));
    }

    /** Resources without a pressure are skipped; every other one is tracked on its own, and the
        changes of state are reported in resource order. */
    method Update(pressures: seq<Option<real>>, raw: seq<Option<bool>>) returns (transitions: seq<Transition>)
      requires Valid() && |pressures| == 5 && |raw| == 5
      modifies states, saturatedRun, clearRun
      ensures forall i :: 0 <= i < 5 ==>
        At(i) == if pressures[i].None? then old(At(i)) else RecordSample(old(At(i)), pressures[i].value, raw[i])
      ensures transitions == Changes(old(states[..]), states[..], pressures, 5)
    {
      transitions := [];
      ghost var before := states[..];
      for i := 0 to 5
        invariant |before| == 5 && before == old(states[..])
        invariant forall j :: 0 <= j < i ==>
          At(j) == if pressures[j].None? then old(At(j)) else RecordSample(old(At(j)), pressures[j].value, raw[j])
        invariant forall j :: i <= j < 5 ==> At(j) == old(At(j))
        invariant transitions == Changes(before, states[..], pressures, i)
      {
        ghost var mid := states[..];
        if pressures[i].Some? {
          var transition := RecordSampleAt(i, pressures[i].value, raw[i]);
          if transition.Some? {
            transitions := transitions + [transition.value];
          }
        }
        ChangesDependOnPrefix(before, mid, states[..], pressures, i);
      }
    }
  }

  /** One sampling tick: observe, then track. Each resource moves exactly as its own gauge does, so
      everything proved of one gauge holds of all five side by side. */
  method Tick(monitor: Monitor, tracker: TransitionTracker, ratios: seq<Ratio>) returns (transitions: seq<Transition>)
    requires tracker.Valid() && |ratios| == 5
    modifies monitor, tracker.states, tracker.saturatedRun, tracker.clearRun
    ensures forall i :: 0 <= i < 5 ==>
      Gauge(monitor.Pressures()[i], tracker.At(i))
      == Round(old(Gauge(monitor.Pressures()[i], tracker.At(i))), ratios[i], BANDS[i])
  {
    var pressures := monitor.Fold(ratios);
    transitions := tracker.Update(pressures, monitor.rawSaturated);
  }
}
