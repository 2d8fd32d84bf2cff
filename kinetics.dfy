/** The kinetics model (app.js lines 33-35 and 205-234): temperature gives an
    agitation speed and a per-contact reaction probability. The exponential is
    injected; the model works over reals, not IEEE doubles. */
module Kinetics {
  import opened Geometry

  /** The hidden reaction-rate multipliers cycled by the R key. */
  const RateLevels: seq<real> := [0.5, 1.0, 1.8, 2.8]
  const DefaultRateIndex: nat := 1

  const GasConstant: real := 8.314
  const ActivationEnergy: real := 10500.0
  const PreFactor: real := 0.65
  const MaxProbability: real := 0.55
  const MinSpeed: real := 0.40
  const MaxSpeed: real := 3.8
  /** Below this Celsius temperature both outputs are damped further. */
  const ColdThreshold: real := 25.0

  datatype KineticOutput = KineticOutput(speed: real, p: real)

  /** The R key: rIdx = (rIdx + 1) % rLevels.length. */
  function NextRateIndex(i: nat): (r: nat)
    requires i < |RateLevels|
    ensures r < |RateLevels|
    ensures r == 0 <==> i == |RateLevels| - 1
    ensures i < |RateLevels| - 1 ==> r == i + 1
  {
    (i + 1) % |RateLevels|
  }

  /** Pressing R once per level brings the multiplier back to where it was. */
  lemma RateCycleReturns(i: nat)
    requires i < |RateLevels|
    ensures NextRateIndex(NextRateIndex(NextRateIndex(NextRateIndex(i)))) == i
  {
  }

  /** Agitation before any cold damping: linear in Celsius, 0.45 at 10 degrees
      and 3.8 at 120 degrees, clamped to [0.40, 3.8]. */
  function Agitation(tc: real): (s: real)
    ensures MinSpeed <= s <= MaxSpeed
  {
    Clamp(0.45 + ((tc - 10.0) / (120.0 - 10.0)) * 3.35, MinSpeed, MaxSpeed)
  }

  /** A warmer gas is never slower before damping. */
  lemma AgitationMonotone(t1: real, t2: real)
    requires t1 <= t2
    ensures Agitation(t1) <= Agitation(t2)
  {
  }

  /** exp(-Ea / (R Tk)); at Tk = 0 the exponent is minus infinity and the factor is 0. */
  function ArrheniusFactor(tk: real, exp: real -> real): real
  {
    if tk == 0.0 then 0.0 else exp(-ActivationEnergy / (GasConstant * tk))
  }

  /** The damping factor on the probability below the cold threshold. */
  function ColdProbabilityFactor(trapMode: bool): real
  {
    if trapMode then 0.015 else 0.08
  }

  /** The damping factor on the speed below the cold threshold. */
  function ColdSpeedFactor(trapMode: bool): real
  {
    if trapMode then 0.55 else 0.78
  }

  /** kineticParams() with the slider temperature, rLevels[rIdx] and the trap
      flag passed in: p is never above the ceiling and never negative, and the
      speed stays visible and bounded, whatever the temperature. */
  function KineticParams(tc: real, rateLevel: real, trapMode: bool, exp: real -> real): (k: KineticOutput)
    ensures 0.0 <= k.p <= MaxProbability
    ensures MinSpeed * ColdSpeedFactor(true) <= k.speed <= MaxSpeed
    ensures ColdThreshold <= tc ==> k.speed == Agitation(tc)
  {
    var tk := tc + 273.15;
    var speed := Agitation(tc);
    var p := Clamp(PreFactor * ArrheniusFactor(tk, exp) * rateLevel, 0.0, MaxProbability);
    if tc < ColdThreshold then
      KineticOutput(speed * ColdSpeedFactor(trapMode), p * ColdProbabilityFactor(trapMode))
    else
      KineticOutput(speed, p)
  }

  /** Below 25 degrees the trap mode never gives a faster gas or a larger
      probability than the normal mode. */
  lemma TrapDampsMore(tc: real, rateLevel: real, exp: real -> real)
    requires tc < ColdThreshold
    ensures KineticParams(tc, rateLevel, true, exp).p <= KineticParams(tc, rateLevel, false, exp).p
    ensures KineticParams(tc, rateLevel, true, exp).speed < KineticParams(tc, rateLevel, false, exp).speed
  {
  }

  /** When the Arrhenius factor and the multiplier are positive, the trap mode
      strictly lowers the probability below 25 degrees. */
  lemma TrapStrictlyLowersProbability(tc: real, rateLevel: real, exp: real -> real)
    requires tc < ColdThreshold
    requires 0.0 < rateLevel && 0.0 < ArrheniusFactor(tc + 273.15, exp)
    ensures 0.0 < KineticParams(tc, rateLevel, true, exp).p < KineticParams(tc, rateLevel, false, exp).p
  {
    var a := ArrheniusFactor(tc + 273.15, exp);
    assert 0.0 < PreFactor * a * rateLevel by { PosProduct(PreFactor * a, rateLevel); }
  }

  /** At or above 25 degrees the trap toggle has no effect. */
  lemma TrapIrrelevantWhenWarm(tc: real, rateLevel: real, exp: real -> real)
    requires ColdThreshold <= tc
    ensures KineticParams(tc, rateLevel, true, exp) == KineticParams(tc, rateLevel, false, exp)
  {
  }
}
