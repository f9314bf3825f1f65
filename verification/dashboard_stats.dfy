/** The hero dashboard's "living" figures (DashboardShowcase.tsx): every 1.5 s efficiency and
    prediction confidence take a random step and are clamped back into fixed bands, and uptime
    is pinned at 99.9. The random draws are parameters. */
module DashboardStats {
  import opened RealMath

  /** A draw of `Math.random()`. */
  type Draw = r: real | 0.0 <= r < 1.0

  datatype Stats = Stats(efficiency: real, predictions: real, uptime: real)

  const EfficiencyLow: real := 45.0
  const EfficiencyHigh: real := 98.0
  const PredictionsLow: real := 95.0
  const PredictionsHigh: real := 99.9
  const Uptime: real := 99.9

  /** The figures the page starts with. */
  const Initial: Stats := Stats(64.5, 98.0, 99.9)

  /** Both moving figures are inside their bands. */
  predicate InBands(s: Stats) {
    && EfficiencyLow <= s.efficiency <= EfficiencyHigh
    && PredictionsLow <= s.predictions <= PredictionsHigh
  }

  /** One tick of the interval: efficiency moves by up to ±2.5 and predictions by up to ±0.5
      before clamping; uptime is reset to 99.9. */
  function Tick(s: Stats, r1: Draw, r2: Draw): (t: Stats)
    ensures InBands(t)
    ensures t.uptime == 99.9
  {
    Stats(
      Clamp(s.efficiency + (r1 - 0.5) * 5.0, EfficiencyLow, EfficiencyHigh),
      Clamp(s.predictions + (r2 - 0.5), PredictionsLow, PredictionsHigh),
      Uptime)
  }

  /** The starting figures are already in their bands. */
  lemma InitialInBands()
    ensures InBands(Initial) && Initial.uptime == Uptime
  {
  }

  /** From inside the bands, a tick moves efficiency by at most 2.5 and predictions by at most
      0.5: clamping can only pull a step back toward where it started. */
  lemma TickStepBounded(s: Stats, r1: Draw, r2: Draw)
    requires InBands(s)
    ensures var t := Tick(s, r1, r2);
      && -2.5 <= t.efficiency - s.efficiency <= 2.5
      && -0.5 <= t.predictions - s.predictions <= 0.5
  {
  }

  /** The figures after a run of ticks, one pair of draws per tick. */
  function Run(s: Stats, draws: seq<(Draw, Draw)>): Stats
    decreases |draws|
  {
    if draws == [] then s else Run(Tick(s, draws[0].0, draws[0].1), draws[1..])
  }

  /** However the draws fall, the figures shown stay in their bands and uptime stays 99.9. */
  lemma {:induction false} RunStaysInBands(draws: seq<(Draw, Draw)>)
    ensures InBands(Run(Initial, draws)) && Run(Initial, draws).uptime == Uptime
  {
    RunFromInBands(Initial, draws);
  }

  lemma {:induction false} RunFromInBands(s: Stats, draws: seq<(Draw, Draw)>)
    requires InBands(s) && s.uptime == Uptime
    ensures InBands(Run(s, draws)) && Run(s, draws).uptime == Uptime
    decreases |draws|
  {
    if draws != [] {
      RunFromInBands(Tick(s, draws[0].0, draws[0].1), draws[1..]);
    }
  }

  /** The efficiency bar's width, in percent of its track: the efficiency figure itself. */
  function EfficiencyBarWidth(s: Stats): (w: real)
    ensures InBands(s) ==> 0.0 <= w <= 100.0
  {
    s.efficiency
  }

  /** Whatever the draws, the bar shows the current efficiency and never overflows or leaves
      its track: its width stays between 45% and 98%. */
  lemma BarWidthInTrack(draws: seq<(Draw, Draw)>)
    ensures var s := Run(Initial, draws);
      && EfficiencyBarWidth(s) == s.efficiency
      && EfficiencyLow <= EfficiencyBarWidth(s) <= EfficiencyHigh
  {
    RunStaysInBands(draws);
  }
}
