/** The integer control law: rounding, anti-windup, bumpless transfer and hysteresis. */
module ThermostatControl {
  import opened Common
  import opened Thermostat

  // ----- Rounding ------------------------------------------------------------------------------

  /** `q` is the integer nearest to `a / b`, a half going away from zero. */
  predicate Nearest(q: int, a: int, b: int) {
    2 * Abs(a - q * b) <= Abs(b) && (2 * Abs(a - q * b) == Abs(b) ==> Abs(q * b) > Abs(a))
  }

  /** A quotient of magnitudes, signed like `RDiv` signs it, times the divisor. */
  lemma SignedProduct(k: int, a: int, b: int)
    requires k >= 0
    ensures (if (a < 0) == (b < 0) then k else -k) * b == if a < 0 then -(k * Abs(b)) else k * Abs(b)
  {
    if b < 0 {
      assert k * b == -(k * -b);
    }
  }

  lemma MulMonotone(x: int, y: int, c: int)
    requires x <= y && c >= 0
    ensures x * c <= y * c
  {
    assert (y - x) * c >= 0;
    assert (y - x) * c == y * c - x * c;
  }

  lemma SucMul(q: int, m: int)
    ensures (q + 1) * m == q * m + m
  {
  }

  lemma MagnitudeNearest(n: nat, m: nat)
    requires m > 0
    ensures var k := RoundHalfUp(n, m);
            2 * Abs(n - k * m) <= m && (2 * Abs(n - k * m) == m ==> k * m > n) && k * m >= 0
  {
    var q, r := n / m, n % m;
    assert n == q * m + r;
    SucMul(q, m);
    MulMonotone(0, q, m);
  }

  lemma SignedNearest(k: int, a: int, b: int)
    requires k >= 0 && k * Abs(b) >= 0
    requires 2 * Abs(Abs(a) - k * Abs(b)) <= Abs(b)
    requires 2 * Abs(Abs(a) - k * Abs(b)) == Abs(b) ==> k * Abs(b) > Abs(a)
    ensures Nearest(if (a < 0) == (b < 0) then k else -k, a, b)
  {
    SignedProduct(k, a, b);
  }

  lemma RDivNearest(a: int, b: int)
    requires b != 0
    ensures Nearest(RDiv(a, b), a, b)
  {
    hide RoundHalfUp;
    MagnitudeNearest(Abs(a), Abs(b));
    SignedNearest(RoundHalfUp(Abs(a), Abs(b)), a, b);
  }

  /** Distinct multiples of `b` lie at least `b` apart, and further if they are no neighbours. */
  lemma MultiplesApart(q: int, q': int, b: int)
    requires q < q' && b > 0
    ensures q' * b - q * b >= b
    ensures q + 1 < q' ==> q' * b - q * b > b
  {
    SucMul(q, b);
    MulMonotone(q + 1, q', b);
    if q + 1 < q' {
      SucMul(q + 1, b);
      MulMonotone(q + 2, q', b);
    }
  }

  lemma NearestFlip(q: int, a: int, b: int)
    requires Nearest(q, a, b)
    ensures Nearest(-q, a, -b)
  {
    assert (-q) * (-b) == q * b;
  }

  /** `Nearest` determines the quotient. */
  lemma {:induction false} NearestUnique(q: int, q': int, a: int, b: int)
    requires b != 0 && Nearest(q, a, b) && Nearest(q', a, b)
    ensures q == q'
    decreases b < 0
  {
    if b < 0 {
      NearestFlip(q, a, b);
      NearestFlip(q', a, b);
      NearestUnique(-q, -q', a, -b);
    } else {
      NearestNotBelow(q, q', a, b);
      NearestNotBelow(q', q, a, b);
    }
  }

  lemma NearestNotBelow(q: int, q': int, a: int, b: int)
    requires b > 0 && Nearest(q, a, b) && Nearest(q', a, b)
    ensures q >= q'
  {
    if q < q' {
      MultiplesApart(q, q', b);
      // both are halves away from `a`, yet neighbouring multiples lie on one side of zero
      if q >= 0 {
        MulMonotone(0, q, b);
      } else {
        MulMonotone(q', 0, b);
      }
    }
  }

  lemma RDivMonotone(a: int, a': int, b: int)
    requires b > 0 && a <= a'
    ensures RDiv(a, b) <= RDiv(a', b)
  {
    RDivNearest(a, b);
    RDivNearest(a', b);
    var q, q' := RDiv(a, b), RDiv(a', b);
    if q > q' {
      MultiplesApart(q', q, b);
      TieMonotone(q * b, q' * b, a, a', b);
    }
  }

  lemma TieMonotone(p: int, p': int, a: int, a': int, b: int)
    requires b > 0 && a <= a' && p >= p' + b
    requires 2 * Abs(a - p) <= b && 2 * Abs(a' - p') <= b
    ensures a == a' && 2 * Abs(a - p) == b && 2 * Abs(a' - p') == b
  {
  }

  lemma RDivOdd(a: int, b: int)
    requires b > 0
    ensures RDiv(-a, b) == -RDiv(a, b)
  {
  }

  // ----- Anti-windup ---------------------------------------------------------------------------

  /** One step of the law over time: reference, outside, target, time since the last step, level. */
  datatype Sample = Sample(tRef: int, tOut: Option<int>, target: int, dt: int, level: Option<int>, now: int)

  function RunLaw(ctl: Ctl, samples: seq<Sample>, cfg: Settings): Ctl
    decreases |samples|
  {
    if samples == [] then ctl
    else
      var s := samples[0];
      RunLaw(ControlStep(s.tRef, s.tOut, s.target, s.dt, ctl, cfg, s.level, s.now).ctl, samples[1..], cfg)
  }

  predicate GainsOk(cfg: Settings) {
    cfg.kp >= 0 && cfg.ki >= 0 && cfg.ka >= 0 && cfg.uOutMax >= 0 && cfg.periodMs >= 0
  }

  /** The largest change of the integrator in one step with an error of at most `e`. */
  function MaxGain(e: nat, cfg: Settings): int {
    RDiv(cfg.ki * e * (3 * cfg.periodMs), 6000000)
  }

  /** The sample keeps the error within `e`, moves time forward and keeps the outside reading
      present or absent as the controller last saw it. */
  predicate Within(s: Sample, e: nat, present: bool) {
    Abs(s.target - s.tRef) <= e && s.dt >= 0 && s.tOut.Some? == present
  }

  lemma MulMonotone2(x: int, y: int, c: int, d: int)
    requires 0 <= x <= y && 0 <= c <= d
    ensures 0 <= x * c <= y * d
  {
    MulMonotone(x, y, c);
    MulMonotone(c, d, y);
    MulMonotone(0, x, c);
  }

  lemma IncrementBounded(err: int, dt: int, e: nat, cfg: Settings)
    requires GainsOk(cfg) && Abs(err) <= e && 0 <= dt <= 3 * cfg.periodMs
    ensures var inc := RDiv(cfg.ki * err * dt, 6000000);
            && (err >= 0 ==> 0 <= inc <= MaxGain(e, cfg))
            && (err <= 0 ==> -MaxGain(e, cfg) <= inc <= 0)
  {
    hide RDiv;
    var m, most := Abs(err), 3 * cfg.periodMs;
    RDivZero(6000000);
    MulMonotone2(m, e, dt, most);
    MulMonotone2(m * dt, e * most, cfg.ki, cfg.ki);
    Reassociate(cfg.ki, m, dt);
    Reassociate(cfg.ki, e, most);
    var up := cfg.ki * m * dt;
    RDivMonotone(0, up, 6000000);
    RDivMonotone(up, cfg.ki * e * most, 6000000);
    RDivOdd(up, 6000000);
    NegateMiddle(cfg.ki, m, dt);
    assert err >= 0 ==> cfg.ki * err * dt == up;
    assert err < 0 ==> cfg.ki * err * dt == -up;
  }

  lemma Reassociate(k: int, m: int, d: int)
    ensures k * m * d == (m * d) * k
  {
  }

  lemma NegateMiddle(k: int, m: int, d: int)
    ensures k * -m * d == -(k * m * d)
  {
  }

  lemma ProportionalSign(tRef: int, target: int, cfg: Settings)
    requires cfg.kp >= 0
    ensures target >= tRef ==> Proportional(tRef, target, cfg) >= 0
    ensures target <= tRef ==> Proportional(tRef, target, cfg) <= 0
  {
    hide RDiv;
    RDivZero(100);
    if target >= tRef {
      assert cfg.kp * (target - tRef) >= 0;
      RDivMonotone(0, cfg.kp * (target - tRef), 100);
    } else {
      assert cfg.kp * (tRef - target) >= 0;
      assert cfg.kp * (target - tRef) == -(cfg.kp * (tRef - target));
      RDivMonotone(cfg.kp * (target - tRef), 0, 100);
    }
  }

  /** One step leaves the integrator within the band, or where it was. */
  lemma IntegratorStep(s: Sample, ctl: Ctl, e: nat, cfg: Settings)
    requires GainsOk(cfg) && Within(s, e, ctl.uOut.Some?)
    ensures var next := ControlStep(s.tRef, s.tOut, s.target, s.dt, ctl, cfg, s.level, s.now).ctl;
            && next.uOut.Some? == ctl.uOut.Some?
            && Min(ctl.i, 1000 * cfg.minLevel - cfg.uOutMax - MaxGain(e, cfg)) <= next.i
            && next.i <= Max(ctl.i, 10000 + MaxGain(e, cfg))
  {
    hide RDiv, Proportional, LevelOf;
    var err := s.target - s.tRef;
    ProportionalSign(s.tRef, s.target, cfg);
    if s.dt <= 3 * cfg.periodMs {
      IncrementBounded(err, s.dt, e, cfg);
    }
  }

  /** However long the law runs, the integrator stays within one step's gain of the demand band,
      apart from where it started. */
  lemma {:induction false} AntiWindup(ctl: Ctl, samples: seq<Sample>, e: nat, cfg: Settings)
    requires GainsOk(cfg) && forall s :: s in samples ==> Within(s, e, ctl.uOut.Some?)
    ensures var i := RunLaw(ctl, samples, cfg).i;
            && Min(ctl.i, 1000 * cfg.minLevel - cfg.uOutMax - MaxGain(e, cfg)) <= i
            && i <= Max(ctl.i, 10000 + MaxGain(e, cfg))
    decreases |samples|
  {
    hide ControlStep, MaxGain;
    if samples != [] {
      var s := samples[0];
      IntegratorStep(s, ctl, e, cfg);
      AntiWindup(ControlStep(s.tRef, s.tOut, s.target, s.dt, ctl, cfg, s.level, s.now).ctl, samples[1..], e, cfg);
    }
  }

  // ----- With the outside reading coming and going ---------------------------------------------

  /** What a sample moves into the integrator because the outside reading came or went. */
  function Share(s: Sample, ctl: Ctl, cfg: Settings): int {
    Bumpless(ctl.i, ctl.uOut, FeedForward(s.tOut, s.target, cfg), s.level) - ctl.i
  }

  /** The shares moved in over a run, and those moved out. */
  function MovedIn(ctl: Ctl, samples: seq<Sample>, cfg: Settings): nat
    decreases |samples|
  {
    if samples == [] then 0
    else Max(Share(samples[0], ctl, cfg), 0) + MovedIn(NextCtl(samples[0], ctl, cfg), samples[1..], cfg)
  }

  function MovedOut(ctl: Ctl, samples: seq<Sample>, cfg: Settings): nat
    decreases |samples|
  {
    if samples == [] then 0
    else Max(-Share(samples[0], ctl, cfg), 0) + MovedOut(NextCtl(samples[0], ctl, cfg), samples[1..], cfg)
  }

  function NextCtl(s: Sample, ctl: Ctl, cfg: Settings): Ctl {
    ControlStep(s.tRef, s.tOut, s.target, s.dt, ctl, cfg, s.level, s.now).ctl
  }

  predicate ErrorWithin(s: Sample, e: nat) {
    Abs(s.target - s.tRef) <= e && s.dt >= 0
  }

  lemma ShareStep(s: Sample, ctl: Ctl, e: nat, cfg: Settings)
    requires GainsOk(cfg) && ErrorWithin(s, e)
    ensures var i := NextCtl(s, ctl, cfg).i; var start := ctl.i + Share(s, ctl, cfg);
            && Min(start, 1000 * cfg.minLevel - cfg.uOutMax - MaxGain(e, cfg)) <= i
            && i <= Max(start, 10000 + MaxGain(e, cfg))
  {
    hide RDiv, Proportional, LevelOf;
    ProportionalSign(s.tRef, s.target, cfg);
    if s.dt <= 3 * cfg.periodMs {
      IncrementBounded(s.target - s.tRef, s.dt, e, cfg);
    }
  }

  /** Whatever the outside reading does, the integrator leaves its band by no more than the shares moved:
      below by those moved out, above by those moved in. */
  lemma {:induction false} AntiWindupSwitching(ctl: Ctl, samples: seq<Sample>, e: nat, cfg: Settings)
    requires GainsOk(cfg) && forall s :: s in samples ==> ErrorWithin(s, e)
    ensures var i := RunLaw(ctl, samples, cfg).i;
            && Min(ctl.i, 1000 * cfg.minLevel - cfg.uOutMax - MaxGain(e, cfg)) - MovedOut(ctl, samples, cfg) <= i
            && i <= Max(ctl.i, 10000 + MaxGain(e, cfg)) + MovedIn(ctl, samples, cfg)
    decreases |samples|
  {
    hide ControlStep, MaxGain, Share;
    if samples != [] {
      ShareStep(samples[0], ctl, e, cfg);
      AntiWindupSwitching(NextCtl(samples[0], ctl, cfg), samples[1..], e, cfg);
    }
  }

  /** On target, the outside reading appears at 0 degrees, warms to the target and disappears. */
  function OutsideCycle(now: int): seq<Sample> {
    [Sample(2000, Some(0), 2000, 60000, Some(5), now), Sample(2000, Some(2000), 2000, 60000, Some(5), now),
     Sample(2000, None, 2000, 60000, Some(5), now)]
  }

  function Cycles(n: nat, now: int): seq<Sample> {
    if n == 0 then [] else OutsideCycle(now) + Cycles(n - 1, now)
  }

  /** The bound needs the outside reading to stay: each time it comes cold and leaves warm the integrator
      gives up the share it took over, so it can fall below any bound without any error. */
  lemma {:induction false} OutsideSwitchingDrifts(ctl: Ctl, n: nat, now: int)
    requires ctl.uOut.None?
    ensures RunLaw(ctl, Cycles(n, now), DEFAULTS).i == ctl.i - 2000 * n
    decreases n
  {
    hide ControlStep;
    if n > 0 {
      var samples := Cycles(n, now);
      var c1, c2 := OnTarget(Some(0), ctl, now), OnTarget(Some(2000), OnTarget(Some(0), ctl, now), now);
      var c3 := OnTarget(None, c2, now);
      OutsideStep(Some(0), ctl, now);
      OutsideStep(Some(2000), c1, now);
      OutsideStep(None, c2, now);
      var s1, s2, s3 := samples[1..], samples[1..][1..], samples[1..][1..][1..];
      assert s3 == Cycles(n - 1, now);
      assert RunLaw(ctl, samples, DEFAULTS) == RunLaw(c1, s1, DEFAULTS);
      assert RunLaw(c1, s1, DEFAULTS) == RunLaw(c2, s2, DEFAULTS);
      assert RunLaw(c2, s2, DEFAULTS) == RunLaw(c3, s3, DEFAULTS);
      OutsideSwitchingDrifts(c3, n - 1, now);
    }
  }

  function OnTarget(tOut: Option<int>, ctl: Ctl, now: int): Ctl {
    ControlStep(2000, tOut, 2000, 60000, ctl, DEFAULTS, Some(5), now).ctl
  }

  lemma OutsideStep(tOut: Option<int>, ctl: Ctl, now: int)
    requires tOut in {None, Some(0), Some(2000)}
    ensures var next := OnTarget(tOut, ctl, now);
            && next.uOut == (if tOut.None? then None else Some(2000 - tOut.value))
            && next.i == Bumpless(ctl.i, ctl.uOut, next.uOut, Some(5))
  {
    hide LevelOf;
    assert FeedForward(Some(0), 2000, DEFAULTS) == Some(2000);
    assert FeedForward(Some(2000), 2000, DEFAULTS) == Some(0);
    RDivZero(6000000);
  }

  // ----- Bumpless transfer and tracking --------------------------------------------------------

  /** When the outside reading appears or disappears while the level is known, the new demand is the
      demand of the old share plus at most the integration of this step: none while frozen there. */
  lemma OutsideSwitchBumpless(s: Sample, ctl: Ctl, cfg: Settings)
    requires s.level.Some? && s.tOut.Some? != ctl.uOut.Some?
    ensures var before := Proportional(s.tRef, s.target, cfg) + ctl.i + ctl.uOut.GetOr(0);
            var err := s.target - s.tRef;
            ControlStep(s.tRef, s.tOut, s.target, s.dt, ctl, cfg, s.level, s.now).ctl.u
            == before + if Frozen(before, err, s.dt, cfg) then 0 else RDiv(cfg.ki * err * s.dt, 6000000)
  {
    hide RDiv, Proportional, LevelOf;
  }

  lemma RDivZero(b: int)
    requires b > 0
    ensures RDiv(0, b) == 0
  {
  }

  lemma RDivExact(k: int)
    ensures RDiv(1000 * k, 1000) == k
  {
  }

  /** Tracking solves for the integrator: whatever the controller, proportional, integrator and outside
      share add up to the level. */
  lemma TrackIsExact(ctl: Ctl, level: int, tRef: int, target: int, cfg: Settings)
    ensures var tracked := Track(ctl, level, tRef, target, cfg);
            && Proportional(tRef, target, cfg) + tracked.i + tracked.uOut.GetOr(0) == 1000 * level
            && tracked == ctl.(i := tracked.i)
  {
    hide RDiv, Proportional;
  }

  /** A tracked controller's next demand is exactly the current level, so with the outside share as
      before and no time passed the law keeps that level. */
  lemma TrackHolds(ctl: Ctl, level: int, s: Sample, cfg: Settings)
    requires 1 <= cfg.minLevel <= level <= 10 && s.level == Some(level) && s.dt == 0
    requires FeedForward(s.tOut, s.target, cfg) == ctl.uOut
    ensures var tracked := Track(ctl, level, s.tRef, s.target, cfg);
            var c := ControlStep(s.tRef, s.tOut, s.target, s.dt, tracked, cfg, s.level, s.now);
            && c.ctl.u == 1000 * level && LevelOf(c.ctl.u, cfg) == level && c.level.None?
  {
    hide RDiv, Proportional;
    RDivZero(6000000);
    RDivExact(level);
    assert cfg.ki * (s.target - s.tRef) * 0 == 0;
  }

  // ----- Hysteresis and dwell ------------------------------------------------------------------

  predicate Changes(c: Control) {
    c.reason.LevelUp? || c.reason.LevelDown?
  }

  lemma LevelOfBand(u: int, cfg: Settings)
    requires 1 <= cfg.minLevel <= 10
    ensures var l := LevelOf(u, cfg);
            && cfg.minLevel <= l <= 10
            && (l > cfg.minLevel ==> u >= 1000 * l - 500)
            && (l < 10 ==> u < 1000 * l + 500)
  {
  }

  /** A level change at a known level keeps the dwell, leaves the band of `500 + hyst` around the
      level, and, if that level was the controller's answer to a demand, needs the demand to have
      moved by at least `hyst` since, at the clamps too. */
  lemma ChangeNeedsMovement(s: Sample, ctl: Ctl, cfg: Settings, level: int, u0: int)
    requires 1 <= cfg.minLevel <= 10 && s.level == Some(level)
    requires Changes(ControlStep(s.tRef, s.tOut, s.target, s.dt, ctl, cfg, s.level, s.now))
    ensures var c := ControlStep(s.tRef, s.tOut, s.target, s.dt, ctl, cfg, s.level, s.now);
            && s.now - ctl.lastChange >= cfg.minDwellMs && Abs(c.ctl.u - 1000 * level) >= 500 + cfg.hyst
            && c.level == Some(LevelOf(c.ctl.u, cfg)) && c.level != Some(level)
            && (level == LevelOf(u0, cfg) ==> Abs(c.ctl.u - u0) >= cfg.hyst)
  {
    hide RDiv, Integrate, FeedForward, LevelOf;
    var c := ControlStep(s.tRef, s.tOut, s.target, s.dt, ctl, cfg, s.level, s.now);
    LevelOfBand(c.ctl.u, cfg);
    LevelOfBand(u0, cfg);
  }

  // ----- What the law computes -----------------------------------------------------------------

  /** The outside share is the nearest to `ka` hundredths of how much colder it is outside than the target,
      kept between 0 and its cap. */
  predicate IsShare(share: int, tOut: int, target: int, cfg: Settings) {
    && (cfg.uOutMax >= 0 ==> 0 <= share <= cfg.uOutMax)
    && (0 < share < cfg.uOutMax ==> Nearest(share, cfg.ka * (target - tOut), 100) && tOut < target)
  }

  lemma ShareOfOutside(tOut: Option<int>, target: int, cfg: Settings)
    requires cfg.ka >= 0
    ensures tOut.None? <==> FeedForward(tOut, target, cfg).None?
    ensures tOut.Some? ==> IsShare(FeedForward(tOut, target, cfg).value, tOut.value, target, cfg)
    ensures tOut.Some? && tOut.value >= target && cfg.uOutMax >= 0 ==> FeedForward(tOut, target, cfg) == Some(0)
    ensures tOut.Some? && tOut.value < target && 0 <= 100 * cfg.uOutMax <= cfg.ka * (target - tOut.value) ==>
              FeedForward(tOut, target, cfg) == Some(cfg.uOutMax)
  {
    hide RDiv, Nearest;
    if tOut.Some? {
      var a := cfg.ka * Max(0, target - tOut.value);
      RDivNearest(a, 100);
      RDivZero(100);
      if tOut.value < target {
        assert cfg.ka * (target - tOut.value) >= 0;
        if 100 * cfg.uOutMax <= a {
          RDivExactly(cfg.uOutMax, 100);
          RDivMonotone(100 * cfg.uOutMax, a, 100);
        }
      } else {
        assert a == 0;
      }
    }
  }

  lemma RDivExactly(k: int, b: int)
    requires b > 0
    ensures RDiv(b * k, b) == k
  {
    hide RDiv;
    RDivNearest(b * k, b);
    ItselfNearest(k, b);
    NearestUnique(RDiv(b * k, b), k, b * k, b);
  }

  lemma ItselfNearest(k: int, b: int)
    requires b > 0
    ensures Nearest(k, b * k, b)
  {
    assert k * b == b * k;
  }

  /** The integrator with the outside share moved in when the reading goes, out when it comes, at a known
      level. */
  function Moved(s: Sample, ctl: Ctl, share: Option<int>): int {
    if s.level.Some? && ctl.uOut.Some? != share.Some? then ctl.i + ctl.uOut.GetOr(0) - share.GetOr(0) else ctl.i
  }

  /** The demand is the sum of a proportional part, the integrator and the outside share. The proportional
      part is `kp` hundredths of the error; the integrator gains `ki` hundredths of the error a minute, except
      after a gap of more than three periods, and where the demand is past the minimum level or level 10
      already and the error drives it on. */
  lemma DemandIs(s: Sample, ctl: Ctl, cfg: Settings)
    ensures var c := ControlStep(s.tRef, s.tOut, s.target, s.dt, ctl, cfg, s.level, s.now).ctl;
            var err, share := s.target - s.tRef, FeedForward(s.tOut, s.target, cfg);
            var p := c.u - c.i - share.GetOr(0);
            var was := Moved(s, ctl, share);
            var demand := p + was + share.GetOr(0);
            var frozen := s.dt > 3 * cfg.periodMs || (demand < 1000 * cfg.minLevel && err < 0) || (demand > 10000 && err > 0);
            && Nearest(p, cfg.kp * err, 100)
            && c.uOut == share
            && (frozen ==> c.i == was)
            && (!frozen ==> Nearest(c.i - was, cfg.ki * err * s.dt, 6000000))
  {
    hide RDiv, Nearest, LevelOf;
    var err := s.target - s.tRef;
    RDivNearest(cfg.kp * err, 100);
    RDivNearest(cfg.ki * err * s.dt, 6000000);
  }

  /** Too hot at the lowest level. */
  predicate TooWarm(s: Sample, cfg: Settings) {
    s.level == Some(cfg.minLevel) && s.tRef > s.target + cfg.bandHi
  }

  /** What the law answers: overheat exactly above `target + overheat`; else target exceeded exactly after
      `hotHoldMs` too warm; else a level exactly if none is known, or the demand has left the level by the
      hysteresis, calls for another and the dwell is over; else hold. */
  lemma AnswersExactly(s: Sample, ctl: Ctl, cfg: Settings)
    ensures var c := ControlStep(s.tRef, s.tOut, s.target, s.dt, ctl, cfg, s.level, s.now);
            var exceeded := TooWarm(s, cfg) && s.now - ctl.hotSince.GetOr(s.now) >= cfg.hotHoldMs;
            var wanted := LevelOf(c.ctl.u, cfg);
            && (c.reason.Overheat? <==> s.tRef > s.target + cfg.overheat)
            && (c.reason.TargetExceeded? <==> !c.reason.Overheat? && exceeded)
            && (c.level.Some? <==>
                  && !c.reason.Overheat? && !exceeded
                  && (s.level.Some? ==> wanted != s.level.value && Abs(c.ctl.u - 1000 * s.level.value) >= 500 + cfg.hyst
                                        && s.now - ctl.lastChange >= cfg.minDwellMs))
            && (c.level.Some? ==> c.level.value == wanted)
            && (c.level.Some? && s.level.Some? ==> c.ctl.lastChange == s.now)
            && (c.level.None? || s.level.None? ==> c.ctl.lastChange == ctl.lastChange)
            && (c.reason.LevelUp? <==> c.level.Some? && (s.level.Some? ==> c.level.value > s.level.value))
            && (c.reason.LevelDown? <==> c.level.Some? && s.level.Some? && c.level.value < s.level.value)
            && (c.reason.Hold? <==> c.level.None? && !c.reason.Overheat? && !exceeded)
            && c.ctl.hotSince == (if TooWarm(s, cfg) then Some(ctl.hotSince.GetOr(s.now)) else None)
  {
    hide Integrate, FeedForward, LevelOf;
  }

  // ----- Hot since -----------------------------------------------------------------------------

  lemma {:induction false} RunLawOneMore(ctl: Ctl, samples: seq<Sample>, s: Sample, cfg: Settings)
    ensures RunLaw(ctl, samples + [s], cfg)
            == ControlStep(s.tRef, s.tOut, s.target, s.dt, RunLaw(ctl, samples, cfg), cfg, s.level, s.now).ctl
    decreases |samples|
  {
    hide ControlStep;
    if samples == [] {
      assert [] + [s] == [s] && [s][1..] == [];
      assert RunLaw(ctl, [s], cfg) == RunLaw(ControlStep(s.tRef, s.tOut, s.target, s.dt, ctl, cfg, s.level, s.now).ctl, [], cfg);
    } else {
      var t := samples[0];
      assert (samples + [s])[1..] == samples[1..] + [s];
      RunLawOneMore(ControlStep(t.tRef, t.tOut, t.target, t.dt, ctl, cfg, t.level, t.now).ctl, samples[1..], s, cfg);
    }
  }

  /** Over a run from a controller that was not too warm: the remembered time is that of a sample since which
      every one was too warm, and there is none exactly if the last was not. */
  lemma {:induction false} HotSinceOverRun(ctl: Ctl, samples: seq<Sample>, cfg: Settings)
    requires ctl.hotSince.None? && samples != []
    ensures var n := |samples|; var since := RunLaw(ctl, samples, cfg).hotSince;
            && (since.Some? <==> TooWarm(samples[n - 1], cfg))
            && (since.Some? ==>
                  exists j :: 0 <= j < n && samples[j].now == since.value && HotFrom(samples, j, cfg)
                         && (j > 0 ==> !TooWarm(samples[j - 1], cfg)))
    decreases |samples|
  {
    hide ControlStep;
    var n := |samples| - 1;
    var front, s := samples[..n], samples[n];
    assert samples == front + [s];
    RunLawOneMore(ctl, front, s, cfg);
    AnswersExactly(s, RunLaw(ctl, front, cfg), cfg);
    if TooWarm(s, cfg) {
      if n > 0 {
        HotSinceOverRun(ctl, front, cfg);
      }
      if n > 0 && TooWarm(samples[n - 1], cfg) {
        var j :| 0 <= j < n && front[j].now == RunLaw(ctl, front, cfg).hotSince.value && HotFrom(front, j, cfg)
                 && (j > 0 ==> !TooWarm(front[j - 1], cfg));
        assert HotFrom(samples, j, cfg) && samples[j] == front[j] && (j > 0 ==> samples[j - 1] == front[j - 1]);
      } else {
        assert RunLaw(ctl, [], cfg) == ctl;
        assert n == 0 ==> front == [];
        assert HotFrom(samples, n, cfg) && samples[n].now == s.now;
      }
    }
  }

  predicate HotFrom(samples: seq<Sample>, j: nat, cfg: Settings) {
    forall i :: j <= i < |samples| ==> TooWarm(samples[i], cfg)
  }

  /** So target exceeded is answered only after that long without a break. */
  lemma ExceededAfterHold(ctl: Ctl, samples: seq<Sample>, s: Sample, cfg: Settings)
    requires ctl.hotSince.None? && cfg.hotHoldMs > 0
    requires ControlStep(s.tRef, s.tOut, s.target, s.dt, RunLaw(ctl, samples, cfg), cfg, s.level, s.now).reason.TargetExceeded?
    ensures TooWarm(s, cfg)
    ensures exists j :: 0 <= j < |samples| && s.now - samples[j].now >= cfg.hotHoldMs && HotFrom(samples, j, cfg)
  {
    hide ControlStep;
    AnswersExactly(s, RunLaw(ctl, samples, cfg), cfg);
    if samples != [] {
      HotSinceOverRun(ctl, samples, cfg);
    }
  }
}
