/**
 * The age stage of pawn generation: a biological age drawn by bounded
 * rejection sampling, a chronological age that is fixed, drawn, or the
 * biological age plus years spent in cryptosleep, and the final raise of the
 * chronological age to at least the biological one. Ages are in ticks.
 *
 * Random draws and the developmental-stage rule are parameters; the clock is
 * the current absolute tick and the current year.
 */
module PawnAge {
  import opened Wrappers
  import Mathf
  import Rand

  const TicksPerYear: int := 3600000
  /** Draws that are checked against the allowed ages; one more is taken unchecked. */
  const MaxAgeTries: nat := 300
  const MaxGeneratedMechanoidAge: real := 2500.0
  /** The year subtracted from the current year to bound the longest cryptosleep. */
  const CryptosleepBaseYear: int := 2026

  /** FloatRange; Includes is inclusive at both ends. */
  datatype FloatRange = FloatRange(min: real, max: real)
  {
    predicate Includes(x: real) { min <= x <= max }
  }

  datatype AgeRequest = AgeRequest(
    newborn: bool,
    /** The allowed developmental stages are exactly Baby. */
    babyOnly: bool,
    fixedBiologicalAge: Option<real>,
    fixedChronologicalAge: Option<real>,
    excludeBiologicalAgeRange: Option<FloatRange>,
    biologicalAgeRange: Option<FloatRange>,
    certainlyBeenInCryptosleep: bool)

  datatype AgeKind = AgeKind(
    minGenerationAge: int,
    maxGenerationAge: int,
    chronologicalAgeRange: Option<FloatRange>,
    backstoryCryptosleepCommonality: real)

  datatype AgeRace = AgeRace(hasAgeGenerationCurve: bool, isMechanoid: bool, lifeExpectancy: real, maxBabyAge: real)

  /**
   * The draws of the biological-age loop, attempt by attempt: a unit draw
   * for the uniform ranges and a draw by the relevant age curve; and whether
   * the developmental stage of an age is among the request's stages.
   */
  datatype AgeOracle = AgeOracle(unit: nat -> real, byCurve: nat -> real, stageAllowed: real -> bool)

  /** The draws of the chronological age, in the order they are consumed. */
  datatype ChronoDraws = ChronoDraws(rangeUnit: real, cryptosleepChance: real, band: real, years: nat)

  ghost predicate OracleFits(o: AgeOracle)
  {
    forall n: nat :: Rand.IsUnit(o.unit(n))
  }

  predicate ChronoFits(d: ChronoDraws)
  {
    Rand.IsUnit(d.rangeUnit) && Rand.IsUnit(d.cryptosleepChance) && Rand.IsUnit(d.band)
  }

  /** The age drawn at one attempt, by the branch the request and race select. */
  function SampleYears(req: AgeRequest, race: AgeRace, u: real, c: real): real
    requires Rand.IsUnit(u)
  {
    if req.babyOnly then Rand.RangeReal(0.0, race.maxBabyAge, u)
    else if race.hasAgeGenerationCurve then c
    else if race.isMechanoid then Rand.RangeReal(0.0, MaxGeneratedMechanoidAge, u)
    else c * race.lifeExpectancy
  }

  function Sample(req: AgeRequest, race: AgeRace, o: AgeOracle, n: nat): real
    requires OracleFits(o)
  {
    SampleYears(req, race, o.unit(n), o.byCurve(n))
  }

  /** The local function AgeAllowed, its checks in order. */
  function AgeAllowed(req: AgeRequest, kind: AgeKind, o: AgeOracle, y: real): (r: bool)
    ensures r ==> kind.minGenerationAge as real <= y <= kind.maxGenerationAge as real
    ensures r ==> o.stageAllowed(y)
    ensures r && req.biologicalAgeRange.Some? ==> req.biologicalAgeRange.value.Includes(y)
    ensures r && req.excludeBiologicalAgeRange.Some? ==> !req.excludeBiologicalAgeRange.value.Includes(y)
  {
    if y > kind.maxGenerationAge as real then false
    else if y < kind.minGenerationAge as real then false
    else if !o.stageAllowed(y) then false
    else if req.excludeBiologicalAgeRange.Some? && req.excludeBiologicalAgeRange.value.Includes(y) then false
    else if req.biologicalAgeRange.Some? && !req.biologicalAgeRange.value.Includes(y) then false
    else true
  }

  /** The attempt whose draw the loop keeps: the first allowed one among the checked draws, else the unchecked last draw. */
  function KeptAttempt(req: AgeRequest, kind: AgeKind, race: AgeRace, o: AgeOracle, n: nat): (r: nat)
    requires OracleFits(o) && n <= MaxAgeTries
    ensures n <= r <= MaxAgeTries
    ensures r < MaxAgeTries ==> AgeAllowed(req, kind, o, Sample(req, race, o, r))
    ensures forall j :: n <= j < r ==> !AgeAllowed(req, kind, o, Sample(req, race, o, j))
    decreases MaxAgeTries - n
  {
    if n == MaxAgeTries then n
    else if AgeAllowed(req, kind, o, Sample(req, race, o, n)) then n
    else KeptAttempt(req, kind, race, o, n + 1)
  }

  /** The biological age in years the do-while loop ends with. */
  function BiologicalYears(req: AgeRequest, kind: AgeKind, race: AgeRace, o: AgeOracle): real
    requires OracleFits(o)
  {
    Sample(req, race, o, KeptAttempt(req, kind, race, o, 0))
  }

  /** Some allowed draw among the checked ones means the kept age is allowed. */
  lemma RejectionKeepsAllowedAge(req: AgeRequest, kind: AgeKind, race: AgeRace, o: AgeOracle, m: nat)
    requires OracleFits(o) && m < MaxAgeTries && AgeAllowed(req, kind, o, Sample(req, race, o, m))
    ensures AgeAllowed(req, kind, o, BiologicalYears(req, kind, race, o))
    ensures KeptAttempt(req, kind, race, o, 0) <= m
  {
  }

  /** The loop of GenerateRandomAge: draw, count, give up after the 300th check, else stop at an allowed age. */
  method DrawBiologicalYears(req: AgeRequest, kind: AgeKind, race: AgeRace, o: AgeOracle) returns (years: real, attempts: nat)
    requires OracleFits(o)
    ensures years == BiologicalYears(req, kind, race, o)
    ensures attempts == KeptAttempt(req, kind, race, o, 0) + 1 && attempts <= MaxAgeTries + 1
  {
    var num := 0;
    years := Sample(req, race, o, 0);
    num := 1;
    while num <= MaxAgeTries && !AgeAllowed(req, kind, o, years)
      invariant 1 <= num <= MaxAgeTries + 1
      invariant years == Sample(req, race, o, num - 1)
      invariant KeptAttempt(req, kind, race, o, 0) == KeptAttempt(req, kind, race, o, num - 1)
      decreases MaxAgeTries + 1 - num
    {
      years := Sample(req, race, o, num);
      num := num + 1;
    }
    attempts := num;
  }

  /** C#'s truncating conversion of a long tick count to whole years. */
  function YearsOf(ticks: int): int
  {
    if ticks >= 0 then ticks / TicksPerYear else -((-ticks) / TicksPerYear)
  }

  function BiologicalTicks(req: AgeRequest, kind: AgeKind, race: AgeRace, o: AgeOracle): int
    requires OracleFits(o)
  {
    if req.newborn then 0
    else if req.fixedBiologicalAge.Some? then Mathf.Trunc(req.fixedBiologicalAge.value * TicksPerYear as real)
    else Mathf.Trunc(BiologicalYears(req, kind, race, o) * TicksPerYear as real)
  }

  /** Years in cryptosleep: 70% up to 100, 25% 100 to 1000, else from 1000 up to the calendar's bound. */
  function CryptosleepYears(req: AgeRequest, kind: AgeKind, bioTicks: int, currentYear: int, d: ChronoDraws): int
    requires ChronoFits(d)
  {
    if req.certainlyBeenInCryptosleep || d.cryptosleepChance < kind.backstoryCryptosleepCommonality then
      if d.band < 0.7 then Rand.RangeInt(0, 100, d.years)
      else if d.band < 0.95 then Rand.RangeInt(100, 1000, d.years)
      else Rand.RangeInt(1000, currentYear - CryptosleepBaseYear - YearsOf(bioTicks), d.years)
    else 0
  }

  /** The chronological age before the final raise. */
  function ChronologicalTicksDrawn(req: AgeRequest, kind: AgeKind, bioTicks: int, currentYear: int, d: ChronoDraws): int
    requires ChronoFits(d)
  {
    if req.newborn then 0
    else if req.fixedChronologicalAge.Some? then Mathf.Trunc(req.fixedChronologicalAge.value * TicksPerYear as real)
    else if kind.chronologicalAgeRange.Some? then
      Mathf.Trunc(Rand.RangeReal(kind.chronologicalAgeRange.value.min, kind.chronologicalAgeRange.value.max, d.rangeUnit) * TicksPerYear as real)
    else bioTicks + CryptosleepYears(req, kind, bioTicks, currentYear, d) * TicksPerYear
  }

  /** The ages GenerateRandomAge sets: biological ticks, and chronological ticks raised to at least that. */
  function AgeTicks(req: AgeRequest, kind: AgeKind, race: AgeRace, o: AgeOracle, currentYear: int, d: ChronoDraws): (r: (int, int))
    requires OracleFits(o) && ChronoFits(d)
    ensures r.0 <= r.1
  {
    var bio := BiologicalTicks(req, kind, race, o);
    var chrono := ChronologicalTicksDrawn(req, kind, bio, currentYear, d);
    (bio, if bio > chrono then bio else chrono)
  }

  /** A newborn is zero ticks old, both ways. */
  lemma NewbornAgeZero(req: AgeRequest, kind: AgeKind, race: AgeRace, o: AgeOracle, currentYear: int, d: ChronoDraws)
    requires OracleFits(o) && ChronoFits(d) && req.newborn
    ensures AgeTicks(req, kind, race, o, currentYear, d) == (0, 0)
  {
  }

  lemma TruncMonotone(x: real, y: real)
    requires x <= y
    ensures Mathf.Trunc(x) <= Mathf.Trunc(y)
  {
  }

  /**
   * Fixed ages are honoured when consistent: with both fixed and the
   * biological not above the chronological, both are kept as given.
   */
  lemma FixedAgesKept(req: AgeRequest, kind: AgeKind, race: AgeRace, o: AgeOracle, currentYear: int, d: ChronoDraws)
    requires OracleFits(o) && ChronoFits(d) && !req.newborn
    requires req.fixedBiologicalAge.Some? && req.fixedChronologicalAge.Some?
    requires req.fixedBiologicalAge.value <= req.fixedChronologicalAge.value
    ensures AgeTicks(req, kind, race, o, currentYear, d) ==
              (Mathf.Trunc(req.fixedBiologicalAge.value * TicksPerYear as real),
               Mathf.Trunc(req.fixedChronologicalAge.value * TicksPerYear as real))
  {
    TruncMonotone(req.fixedBiologicalAge.value * TicksPerYear as real, req.fixedChronologicalAge.value * TicksPerYear as real);
  }

  /** A pawn never in cryptosleep, and with no fixed or ranged chronological age, is as old as it looks. */
  lemma NoCryptosleepSameAge(req: AgeRequest, kind: AgeKind, race: AgeRace, o: AgeOracle, currentYear: int, d: ChronoDraws)
    requires OracleFits(o) && ChronoFits(d) && !req.newborn
    requires req.fixedChronologicalAge.None? && kind.chronologicalAgeRange.None?
    requires !req.certainlyBeenInCryptosleep && kind.backstoryCryptosleepCommonality <= 0.0
    ensures AgeTicks(req, kind, race, o, currentYear, d).1 == AgeTicks(req, kind, race, o, currentYear, d).0
  {
  }

  /** GenerateRandomAge. The birth tick is the current tick less the chronological age. */
  method GenerateRandomAge(req: AgeRequest, kind: AgeKind, race: AgeRace, o: AgeOracle, ticksAbs: int, currentYear: int, d: ChronoDraws)
    returns (bioTicks: int, chronoTicks: int, birthAbsTicks: int)
    requires OracleFits(o) && ChronoFits(d)
    ensures (bioTicks, chronoTicks) == AgeTicks(req, kind, race, o, currentYear, d)
    ensures bioTicks <= chronoTicks
    ensures birthAbsTicks == ticksAbs - chronoTicks
  {
    if req.newborn {
      bioTicks := 0;
    } else if req.fixedBiologicalAge.Some? {
      bioTicks := Mathf.Trunc(req.fixedBiologicalAge.value * TicksPerYear as real);
    } else {
      var years, _ := DrawBiologicalYears(req, kind, race, o);
      bioTicks := Mathf.Trunc(years * TicksPerYear as real);
    }
    if req.newborn {
      chronoTicks := 0;
    } else if req.fixedChronologicalAge.Some? {
      chronoTicks := Mathf.Trunc(req.fixedChronologicalAge.value * TicksPerYear as real);
    } else if kind.chronologicalAgeRange.Some? {
      var rng := kind.chronologicalAgeRange.value;
      chronoTicks := Mathf.Trunc(Rand.RangeReal(rng.min, rng.max, d.rangeUnit) * TicksPerYear as real);
    } else {
      var num2 := CryptosleepYears(req, kind, bioTicks, currentYear, d);
      var birth := ticksAbs - bioTicks - num2 * TicksPerYear;
      chronoTicks := ticksAbs - birth;
    }
    if bioTicks > chronoTicks {
      chronoTicks := bioTicks;
    }
    birthAbsTicks := ticksAbs - chronoTicks;
  }
}
