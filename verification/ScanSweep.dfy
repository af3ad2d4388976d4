/** The node's scanning servo and its acquisition cycle: the sweep is a triangle
    wave, and a healthy sweep is never out of the forward sector for long. */
module ScanSweep {

  datatype Config = Config(minDeg: int, maxDeg: int, stepDeg: int)
  {
    /** The scan bounds use a positive exact step. */
    predicate Valid() { minDeg < maxDeg && stepDeg > 0 && (maxDeg - minDeg) % stepDeg == 0 }

    /** How many steps one sweep across takes. */
    function Steps(): int
      requires stepDeg != 0
    {
      (maxDeg - minDeg) / stepDeg
    }
  }

  const FRONT := Config(-80, 80, 5)

  // Half the angle of the sector ahead whose ranges count for safety.
  const SECTOR_HALF_DEG := 50
  // The longest range the scanner reports.
  const SCANNER_MAX_MM := 4000
  // The longest healthy acquisition cycle and how long a range may stand in, in milliseconds.
  const LONGEST_CYCLE_MS := 145
  const EVIDENCE_STALE_MS := 1800

  datatype Sweep = Sweep(angle: int, upwards: bool)

  function Advance(c: Config, s: Sweep): Sweep {
    if s.upwards then
      if s.angle >= c.maxDeg then Sweep(c.maxDeg - c.stepDeg, false) else s.(angle := s.angle + c.stepDeg)
    else
      if s.angle <= c.minDeg then Sweep(c.minDeg + c.stepDeg, true) else s.(angle := s.angle - c.stepDeg)
  }

  function After(c: Config, n: nat): Sweep {
    if n == 0 then Sweep(c.minDeg, true) else Advance(c, After(c, n - 1))
  }

  /** The triangle wave: up over Steps() samples, down over as many. */
  function Wave(steps: int, n: nat): int
    requires steps > 0
  {
    var phase := n % (2 * steps);
    if phase <= steps then phase else 2 * steps - phase
  }

  lemma StepsAreExact(c: Config)
    requires c.Valid()
    ensures c.Steps() > 0 && c.Steps() * c.stepDeg == c.maxDeg - c.minDeg
  {
  }

  lemma {:induction false} ProductAtLeast(d: int, k: int)
    requires d > 0 && k >= 1
    ensures d * k >= d
    decreases k
  {
    if k > 1 {
      ProductAtLeast(d, k - 1);
      assert d * k == d * (k - 1) + d;
    }
  }

  lemma RemainderIsUnique(n: int, d: int, q: int, r: int)
    requires d > 0 && n == d * q + r && 0 <= r < d
    ensures n % d == r
  {
    var p, m := n / d, n % d;
    assert n == d * p + m;
    assert d * (p - q) == r - m && d * (q - p) == m - r;
    if p > q {
      ProductAtLeast(d, p - q);
    } else if q > p {
      ProductAtLeast(d, q - p);
    }
  }

  lemma NextPhase(period: int, n: nat)
    requires period > 1
    ensures (n + 1) % period == if n % period == period - 1 then 0 else n % period + 1
  {
    var q, r := n / period, n % period;
    assert n == period * q + r;
    if r == period - 1 {
      assert n + 1 == period * (q + 1) + 0;
      RemainderIsUnique(n + 1, period, q + 1, 0);
    } else {
      RemainderIsUnique(n + 1, period, q, r + 1);
    }
  }

  /** The sweep counted in steps from its lower end. */
  function StepAfter(steps: int, n: nat): (r: (int, bool))
    requires steps > 0
    ensures 0 <= r.0 <= steps
  {
    if n == 0 then (0, true)
    else
      var (at, upwards) := StepAfter(steps, n - 1);
      if upwards then if at == steps then (steps - 1, false) else (at + 1, true)
      else if at == 0 then (1, true) else (at - 1, false)
  }

  lemma {:induction false} StepsAreTriangle(steps: int, n: nat)
    requires steps > 0
    ensures StepAfter(steps, n).0 == Wave(steps, n)
    ensures n > 0 ==> (StepAfter(steps, n).1 <==> 0 < n % (2 * steps) <= steps)
  {
    if n > 0 {
      StepsAreTriangle(steps, n - 1);
      NextPhase(2 * steps, n - 1);
      if n == 1 {
        RemainderIsUnique(0, 2 * steps, 0, 0);
      }
    } else {
      RemainderIsUnique(0, 2 * steps, 0, 0);
    }
  }

  /** Angles and steps are the same thing. */
  lemma AngleOfStep(c: Config, at: int)
    requires c.Valid() && 0 <= at <= c.Steps()
    ensures c.minDeg <= c.minDeg + c.stepDeg * at <= c.maxDeg
    ensures at == c.Steps() <==> c.minDeg + c.stepDeg * at >= c.maxDeg
    ensures at == 0 <==> c.minDeg + c.stepDeg * at <= c.minDeg
    ensures c.stepDeg * (at + 1) == c.stepDeg * at + c.stepDeg && c.stepDeg * (at - 1) == c.stepDeg * at - c.stepDeg
    ensures c.stepDeg * 1 == c.stepDeg && c.stepDeg * (c.Steps() - 1) == c.maxDeg - c.minDeg - c.stepDeg
  {
    StepsAreExact(c);
    if at > 0 {
      ProductAtLeast(c.stepDeg, at);
    }
    if at < c.Steps() {
      ProductAtLeast(c.stepDeg, c.Steps() - at);
      assert c.stepDeg * (c.Steps() - at) == c.stepDeg * c.Steps() - c.stepDeg * at;
    }
  }

  lemma {:induction false} SweepCountsSteps(c: Config, n: nat)
    requires c.Valid() && c.Steps() > 0
    ensures After(c, n) == Sweep(c.minDeg + c.stepDeg * StepAfter(c.Steps(), n).0, StepAfter(c.Steps(), n).1)
  {
    if n > 0 {
      SweepCountsSteps(c, n - 1);
      AngleOfStep(c, StepAfter(c.Steps(), n - 1).0);
    }
  }

  /** After any number of steps the angle is the triangle wave. */
  lemma SweepIsTriangle(c: Config, n: nat)
    requires c.Valid()
    ensures c.Steps() > 0 && After(c, n).angle == c.minDeg + c.stepDeg * Wave(c.Steps(), n)
    ensures c.minDeg <= After(c, n).angle <= c.maxDeg
  {
    StepsAreExact(c);
    SweepCountsSteps(c, n);
    StepsAreTriangle(c.Steps(), n);
    AngleOfStep(c, StepAfter(c.Steps(), n).0);
  }

  // ---------------------------------------------------------------------------
  // Out of the sector
  // ---------------------------------------------------------------------------

  predicate InSector(angle: int) { -SECTOR_HALF_DEG <= angle <= SECTOR_HALF_DEG }

  /** The front sweep in closed form. */
  lemma FrontSweep(n: nat)
    ensures var phase := n % 64; After(FRONT, n).angle == if phase <= 32 then -80 + 5 * phase else 80 - 5 * (phase - 32)
  {
    SweepIsTriangle(FRONT, n);
    assert FRONT.Steps() == 32;
  }

  lemma PhaseAhead(n: nat, d: nat)
    requires d < 64
    ensures (n + d) % 64 == if n % 64 + d < 64 then n % 64 + d else n % 64 + d - 64
  {
  }

  /** From any sample on, the sector is reached again within twelve steps. */
  lemma SectorWithinTwelve(n: nat) returns (m: nat)
    ensures n < m <= n + 12 && InSector(After(FRONT, m).angle) && -50 <= After(FRONT, m).angle <= 50
  {
    hide After;
    var phase := n % 64;
    var steps := if phase < 26 then (if phase < 5 then 6 - phase else 1)
                 else if phase < 37 then 38 - phase
                 else if phase < 58 then 1
                 else 70 - phase;
    m := n + steps;
    PhaseAhead(n, steps);
    FrontSweep(m);
  }

  /** Twelve is exact: leaving the sector at +50 it takes all twelve. */
  lemma TwelveIsExact()
    ensures InSector(After(FRONT, 26).angle) && InSector(After(FRONT, 38).angle)
    ensures forall m | 26 < m < 38 :: !InSector(After(FRONT, m).angle)
  {
    hide After;
    FrontSweep(26);
    FrontSweep(38);
    forall m | 26 < m < 38 ensures !InSector(After(FRONT, m).angle) {
      FrontSweep(m);
    }
  }
}
