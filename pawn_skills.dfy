/**
 * The skill stage of pawn generation: the level of every skill, the passion
 * budget, and the order in which passions are handed out; plus the two
 * kind-level checks on the generated levels (best skill and total skills).
 *
 * Random draws are parameters. Rand.ByCurve over the base-level curve is a
 * draw in that curve's domain [0, 15]; the other curves are evaluated.
 */
module PawnSkills {
  import opened Wrappers
  import Mathf
  import Rand
  import SimpleCurves

  /** SkillRecord.Level is kept in [0, 20]. */
  const MaxLevel: int := 20
  type SkillLevel = l: int | 0 <= l <= 20

  datatype Passion = NoPassion | Minor | Major

  // ---------------------------------------------------------------------
  // HasCorrectMinBestSkillLevel / HasCorrectMinTotalSkillLevels

  /** The scan of HasCorrectMinBestSkillLevel: running maximum, true as soon as it reaches the minimum. */
  function BestFrom(levels: seq<SkillLevel>, i: nat, best: int, min: int): bool
    requires i <= |levels|
    decreases |levels| - i
  {
    if i == |levels| then false
    else
      var b := if levels[i] > best then levels[i] else best;
      b >= min || BestFrom(levels, i + 1, b, min)
  }

  function HasCorrectMinBestSkillLevel(levels: seq<SkillLevel>, minBest: int): bool
  {
    minBest <= 0 || BestFrom(levels, 0, 0, minBest)
  }

  lemma {:induction false} BestFromMeaning(levels: seq<SkillLevel>, i: nat, best: int, min: int)
    requires i <= |levels| && best < min
    ensures BestFrom(levels, i, best, min) <==> exists j :: i <= j < |levels| && levels[j] >= min
    decreases |levels| - i
  {
    if i < |levels| {
      var b := if levels[i] > best then levels[i] else best;
      if b < min {
        BestFromMeaning(levels, i + 1, b, min);
      }
    }
  }

  /** The best-skill check passes iff no minimum is set or some skill reaches it. */
  lemma BestSkillCheck(levels: seq<SkillLevel>, minBest: int)
    ensures HasCorrectMinBestSkillLevel(levels, minBest) <==>
              minBest <= 0 || exists j :: 0 <= j < |levels| && levels[j] >= minBest
  {
    if minBest > 0 {
      BestFromMeaning(levels, 0, 0, minBest);
    }
  }

  function Sum(levels: seq<SkillLevel>): nat
  {
    if |levels| == 0 then 0 else levels[0] + Sum(levels[1..])
  }

  /** The scan of HasCorrectMinTotalSkillLevels: running total, true as soon as it reaches the minimum. */
  function TotalFrom(levels: seq<SkillLevel>, i: nat, total: int, min: int): bool
    requires i <= |levels|
    decreases |levels| - i
  {
    if i == |levels| then false
    else
      var t := total + levels[i];
      t >= min || TotalFrom(levels, i + 1, t, min)
  }

  function HasCorrectMinTotalSkillLevels(levels: seq<SkillLevel>, minTotal: int): bool
  {
    minTotal <= 0 || TotalFrom(levels, 0, 0, minTotal)
  }

  lemma {:induction false} TotalFromMeaning(levels: seq<SkillLevel>, i: nat, total: int, min: int)
    requires i <= |levels| && total < min
    ensures TotalFrom(levels, i, total, min) <==> total + Sum(levels[i..]) >= min
    decreases |levels| - i
  {
    if i < |levels| {
      assert levels[i..][1..] == levels[i + 1..];
      var t := total + levels[i];
      if t < min {
        TotalFromMeaning(levels, i + 1, t, min);
      }
    } else {
      assert levels[i..] == [];
    }
  }

  /** Levels are never negative, so stopping at the first prefix that reaches the minimum is the same as comparing the total. */
  lemma TotalSkillCheck(levels: seq<SkillLevel>, minTotal: int)
    ensures HasCorrectMinTotalSkillLevels(levels, minTotal) <==> minTotal <= 0 || Sum(levels) >= minTotal
  {
    if minTotal > 0 {
      TotalFromMeaning(levels, 0, 0, minTotal);
      assert levels[0..] == levels;
    }
  }

  // ---------------------------------------------------------------------
  // FinalLevelOfSkill

  const AgeSkillMaxFactorCurve: seq<SimpleCurves.Point> := [(0.0, 0.0), (10.0, 0.7), (35.0, 1.0), (60.0, 1.6)]
  const AgeSkillFactorCurve: seq<SimpleCurves.Point> := [(3.0, 0.2), (18.0, 1.0)]
  const LevelFinalAdjustmentCurve: seq<SimpleCurves.Point> := [(0.0, 0.0), (10.0, 10.0), (20.0, 16.0), (27.0, 20.0)]
  /** The domain of LevelRandomCurve, from which Rand.ByCurve draws. */
  const LevelRandomCurveMax: real := 15.0

  lemma CurvesWellFormed()
    ensures SimpleCurves.WellFormed(AgeSkillMaxFactorCurve)
    ensures SimpleCurves.WellFormed(AgeSkillFactorCurve)
    ensures SimpleCurves.WellFormed(LevelFinalAdjustmentCurve)
  {
  }

  /** A trait's entry for the skill: suppressed traits add nothing. */
  datatype TraitSkillGain = TraitSkillGain(suppressed: bool, gain: Option<int>)

  /** An entry of the kind's skill list: the skill and the range its level must fall in. */
  datatype SkillRange = SkillRange(skill: nat, min: int, max: int)

  /** What FinalLevelOfSkill reads of the request, the pawn, its kind and the skill. */
  datatype SkillInput = SkillInput(
    skill: nat,
    newborn: bool,
    usuallyDefinedInBackstories: bool,
    /** The pawn's backstory gains for this skill, backstory by backstory. */
    backstoryGains: seq<int>,
    traitGains: seq<TraitSkillGain>,
    ageYears: int,
    extraSkillLevels: int,
    kindSkills: seq<SkillRange>)

  /** The random draws FinalLevelOfSkill consumes, in the order it consumes them. */
  datatype SkillDraws = SkillDraws(
    inclusiveBase: nat,
    curveBase: real,
    gainFactors: seq<real>,
    ageFactor: real,
    redraw: nat)

  predicate DrawsFit(inp: SkillInput, d: SkillDraws)
  {
    && 0.0 <= d.curveBase <= LevelRandomCurveMax
    && |d.gainFactors| == |inp.backstoryGains|
    && (forall i :: 0 <= i < |d.gainFactors| ==> Rand.IsUnit(d.gainFactors[i]))
    && Rand.IsUnit(d.ageFactor)
  }

  function BaseLevel(inp: SkillInput, d: SkillDraws): real
  {
    if inp.usuallyDefinedInBackstories then Rand.RangeInclusive(0, 4, d.inclusiveBase) as real else d.curveBase
  }

  /** Each backstory gain scaled by its own Rand.Range(1, 1.4). */
  function BackstoryBonus(gains: seq<int>, us: seq<real>): real
    requires |us| == |gains| && forall i :: 0 <= i < |us| ==> Rand.IsUnit(us[i])
  {
    if |gains| == 0 then 0.0
    else
      var n := |gains| - 1;
      BackstoryBonus(gains[..n], us[..n]) + gains[n] as real * Rand.RangeReal(1.0, 1.4, us[n])
  }

  function TraitGain(t: TraitSkillGain): int
  {
    if !t.suppressed && t.gain.Some? then t.gain.value else 0
  }

  function TraitBonus(ts: seq<TraitSkillGain>): int
  {
    if |ts| == 0 then 0 else TraitBonus(ts[..|ts| - 1]) + TraitGain(ts[|ts| - 1])
  }

  /** The first entry of the kind's skill list for the skill. */
  function FirstRangeFor(ks: seq<SkillRange>, skill: nat): (r: Option<SkillRange>)
    ensures r.Some? ==> r.value in ks && r.value.skill == skill
    ensures r.None? <==> forall i :: 0 <= i < |ks| ==> ks[i].skill != skill
  {
    if |ks| == 0 then None
    else if ks[0].skill == skill then Some(ks[0])
    else FirstRangeFor(ks[1..], skill)
  }

  /** The age factors, the final adjustment curve and the kind's extra levels, applied to the summed level. */
  function AgeAdjusted(num0: real, ageYears: int, ageFactor: real, extraSkillLevels: int): real
    requires Rand.IsUnit(ageFactor)
  {
    CurvesWellFormed();
    var age := ageYears as real;
    var num1 := num0 * Rand.RangeReal(1.0, SimpleCurves.Evaluate(AgeSkillMaxFactorCurve, age), ageFactor);
    var num2 := num1 * SimpleCurves.Evaluate(AgeSkillFactorCurve, age);
    var num3 := SimpleCurves.Evaluate(LevelFinalAdjustmentCurve, num2);
    if num3 > 0.0 then num3 + extraSkillLevels as real else num3
  }

  /** The level before the kind's range and the rounding. */
  function AdjustedLevel(inp: SkillInput, d: SkillDraws): real
    requires DrawsFit(inp, d)
  {
    var num0 := BaseLevel(inp, d) + BackstoryBonus(inp.backstoryGains, d.gainFactors) + TraitBonus(inp.traitGains) as real;
    AgeAdjusted(num0, inp.ageYears, d.ageFactor, inp.extraSkillLevels)
  }

  /** A level outside the kind's range for the skill is re-drawn from that range. */
  function WithinKindRange(x: real, rng: Option<SkillRange>, redraw: nat): real
  {
    if rng.Some? && (x < rng.value.min as real || x > rng.value.max as real)
    then Rand.RangeInclusive(rng.value.min, rng.value.max, redraw) as real
    else x
  }

  /** The level FinalLevelOfSkill computes. */
  function SkillLevelFor(inp: SkillInput, d: SkillDraws): (r: int)
    requires DrawsFit(inp, d)
    ensures 0 <= r <= MaxLevel
    ensures inp.newborn ==> r == 0
  {
    if inp.newborn then 0
    else Mathf.Clamp(Mathf.RoundToInt(WithinKindRange(AdjustedLevel(inp, d), FirstRangeFor(inp.kindSkills, inp.skill), d.redraw)), 0, MaxLevel)
  }

  /** A skill the kind lists with a range inside [0, 20] always ends inside that range. */
  lemma LevelWithinKindRange(inp: SkillInput, d: SkillDraws)
    requires DrawsFit(inp, d) && !inp.newborn
    requires FirstRangeFor(inp.kindSkills, inp.skill).Some?
    requires var rng := FirstRangeFor(inp.kindSkills, inp.skill).value; 0 <= rng.min <= rng.max <= MaxLevel
    ensures var rng := FirstRangeFor(inp.kindSkills, inp.skill).value;
      rng.min <= SkillLevelFor(inp, d) <= rng.max
  {
    var rng := FirstRangeFor(inp.kindSkills, inp.skill);
    var x := WithinKindRange(AdjustedLevel(inp, d), rng, d.redraw);
    assert rng.value.min as real <= x <= rng.value.max as real;
    Mathf.RoundToIntWithin(x, rng.value.min, rng.value.max);
  }

  /** A skill the kind does not list keeps the computed level, up to rounding and the [0, 20] clamp. */
  lemma UnlistedSkillKeepsLevel(inp: SkillInput, d: SkillDraws)
    requires DrawsFit(inp, d) && !inp.newborn
    requires forall i :: 0 <= i < |inp.kindSkills| ==> inp.kindSkills[i].skill != inp.skill
    requires 0.0 <= AdjustedLevel(inp, d) <= MaxLevel as real
    ensures AdjustedLevel(inp, d) - 0.5 <= SkillLevelFor(inp, d) as real <= AdjustedLevel(inp, d) + 0.5
  {
    Mathf.RoundToIntWithin(AdjustedLevel(inp, d), 0, MaxLevel);
  }

  /** The loop over the backstories' gains for the skill. */
  method BackstoryGainLoop(gains: seq<int>, us: seq<real>) returns (bonus: real)
    requires |us| == |gains| && forall i :: 0 <= i < |us| ==> Rand.IsUnit(us[i])
    ensures bonus == BackstoryBonus(gains, us)
  {
    bonus := 0.0;
    var i := 0;
    while i < |gains|
      invariant 0 <= i <= |gains|
      invariant bonus == BackstoryBonus(gains[..i], us[..i])
    {
      assert gains[..i + 1][..i] == gains[..i];
      assert us[..i + 1][..i] == us[..i];
      bonus := bonus + gains[i] as real * Rand.RangeReal(1.0, 1.4, us[i]);
      i := i + 1;
    }
    assert gains[..i] == gains && us[..i] == us;
  }

  /** The loop over the pawn's traits. */
  method TraitGainLoop(ts: seq<TraitSkillGain>) returns (bonus: int)
    ensures bonus == TraitBonus(ts)
  {
    bonus := 0;
    var t := 0;
    while t < |ts|
      invariant 0 <= t <= |ts|
      invariant bonus == TraitBonus(ts[..t])
    {
      assert ts[..t + 1][..t] == ts[..t];
      if !ts[t].suppressed && ts[t].gain.Some? {
        bonus := bonus + ts[t].gain.value;
      }
      t := t + 1;
    }
    assert ts[..t] == ts;
  }

  /** The loop over the kind's skill list, stopping at the first entry for the skill. */
  method KindRangeLoop(ks: seq<SkillRange>, skill: nat) returns (rng: Option<SkillRange>)
    ensures rng == FirstRangeFor(ks, skill)
  {
    var k := 0;
    while k < |ks|
      invariant 0 <= k <= |ks|
      invariant forall j :: 0 <= j < k ==> ks[j].skill != skill
    {
      if ks[k].skill == skill {
        FirstRangeAt(ks, skill, k);
        return Some(ks[k]);
      }
      k := k + 1;
    }
    return None;
  }

  /** FinalLevelOfSkill. */
  method FinalLevelOfSkill(inp: SkillInput, d: SkillDraws) returns (level: int)
    requires DrawsFit(inp, d)
    ensures level == SkillLevelFor(inp, d)
  {
    if inp.newborn {
      return 0;
    }
    var num := BaseLevel(inp, d);
    var gained := BackstoryGainLoop(inp.backstoryGains, d.gainFactors);
    var bonus := TraitGainLoop(inp.traitGains);
    num := AgeAdjusted(num + gained + bonus as real, inp.ageYears, d.ageFactor, inp.extraSkillLevels);
    var rng := KindRangeLoop(inp.kindSkills, inp.skill);
    if rng.Some? && (num < rng.value.min as real || num > rng.value.max as real) {
      num := Rand.RangeInclusive(rng.value.min, rng.value.max, d.redraw) as real;
    }
    return Mathf.Clamp(Mathf.RoundToInt(num), 0, MaxLevel);
  }

  lemma {:induction false} FirstRangeAt(ks: seq<SkillRange>, skill: nat, k: nat)
    requires k < |ks| && ks[k].skill == skill
    requires forall j :: 0 <= j < k ==> ks[j].skill != skill
    ensures FirstRangeFor(ks, skill) == Some(ks[k])
    decreases k
  {
    if k > 0 {
      FirstRangeAt(ks[1..], skill, k - 1);
    }
  }

  // ---------------------------------------------------------------------
  // The passion budget

  /** The budget loop: spend 1.5 on a major passion when at least 1.5 is left and the coin says so, else 1 on a minor one. */
  function Budget(num: real, coins: nat -> bool, k: nat): (r: (nat, nat))
    ensures num >= 0.0 ==> 1.5 * r.0 as real + r.1 as real <= num
    ensures 1.5 * r.0 as real + r.1 as real > num - 1.0
    decreases num.Floor
  {
    if num < 1.0 then (0, 0)
    else if num >= 1.5 && coins(k) then
      var r := Budget(num - 1.5, coins, k + 1);
      (r.0 + 1, r.1)
    else
      var r := Budget(num - 1.0, coins, if num >= 1.5 then k + 1 else k);
      (r.0, r.1 + 1)
  }

  /** The initial budget: 5 plus a Gaussian draw clamped to [-4, 4]. */
  function InitialBudget(gaussian: real): (b: real)
    ensures 1.0 <= b <= 9.0
  {
    5.0 + Mathf.ClampReal(gaussian, -4.0, 4.0)
  }

  /** Every pawn gets at least one passion slot, and never more than the budget allows. */
  lemma BudgetBounds(gaussian: real, coins: nat -> bool)
    ensures var r := Budget(InitialBudget(gaussian), coins, 0);
      1 <= r.0 + r.1 && 1.5 * r.0 as real + r.1 as real <= 9.0 && r.0 <= 6 && r.0 + r.1 <= 9
  {
  }

  /** The budget loop of GenerateSkills; a coin is drawn only when 1.5 or more is left. */
  method PassionBudget(gaussian: real, coins: nat -> bool) returns (majors: nat, minors: nat)
    ensures (majors, minors) == Budget(InitialBudget(gaussian), coins, 0)
  {
    majors, minors := BudgetLoop(InitialBudget(gaussian), coins);
  }

  method BudgetLoop(start: real, coins: nat -> bool) returns (majors: nat, minors: nat)
    requires start >= 0.0
    ensures (majors, minors) == Budget(start, coins, 0)
  {
    var num := start;
    var k := 0;
    majors, minors := 0, 0;
    while num >= 1.0
      invariant num >= 0.0
      invariant majors + Budget(num, coins, k).0 == Budget(start, coins, 0).0
      invariant minors + Budget(num, coins, k).1 == Budget(start, coins, 0).1
      decreases num.Floor
    {
      BudgetStep(num, coins, k);
      if num >= 1.5 && coins(k) {
        majors := majors + 1;
        num := num - 1.5;
        k := k + 1;
      } else {
        if num >= 1.5 {
          k := k + 1;
        }
        minors := minors + 1;
        num := num - 1.0;
      }
    }
    assert Budget(num, coins, k) == (0, 0);
  }

  /** One turn of the budget loop, unfolded. */
  lemma BudgetStep(num: real, coins: nat -> bool, k: nat)
    requires num >= 1.0
    ensures num >= 1.5 && coins(k) ==>
              Budget(num, coins, k) == (Budget(num - 1.5, coins, k + 1).0 + 1, Budget(num - 1.5, coins, k + 1).1)
    ensures !(num >= 1.5 && coins(k)) ==>
              var k' := if num >= 1.5 then k + 1 else k;
              Budget(num, coins, k) == (Budget(num - 1.0, coins, k').0, Budget(num - 1.0, coins, k').1 + 1)
    ensures (num - 1.5).Floor < num.Floor && (num - 1.0).Floor < num.Floor
  {
  }

  // ---------------------------------------------------------------------
  // Handing out passions

  /** What the passion loops read of a trait: the skills it requires a passion for, and those it conflicts with. */
  datatype PassionTrait = PassionTrait(requiresPassion: set<nat>, conflictsWithPassion: set<nat>)

  datatype SkillState = SkillState(level: SkillLevel, disabled: bool, passion: Passion)

  /** The passion counters CreatePassion draws from; the minor counter may go negative when forced. */
  datatype Counters = Counters(majors: int, minors: int)

  /** The local function CreatePassion: Major while majors remain, else Minor if minors remain or when forced. */
  function CreatePassion(p: Passion, c: Counters, force: bool): (r: (Passion, Counters))
    ensures c.majors > 0 ==> r == (Major, c.(majors := c.majors - 1))
    ensures c.majors <= 0 && (c.minors > 0 || force) ==> r == (Minor, c.(minors := c.minors - 1))
    ensures c.majors <= 0 && c.minors <= 0 && !force ==> r == (p, c)
  {
    if c.majors > 0 then (Major, c.(majors := c.majors - 1))
    else if c.minors > 0 || force then (Minor, c.(minors := c.minors - 1))
    else (p, c)
  }

  ghost predicate RequiredByAny(traits: seq<PassionTrait>, s: nat)
  {
    exists t :: 0 <= t < |traits| && s in traits[t].requiresPassion
  }

  /** Whether some trait conflicts with a passion for skill s. */
  predicate ConflictsAny(traits: seq<PassionTrait>, s: nat)
  {
    |traits| > 0 && (s in traits[0].conflictsWithPassion || ConflictsAny(traits[1..], s))
  }

  lemma {:induction false} ConflictsAnyMeaning(traits: seq<PassionTrait>, s: nat)
    ensures ConflictsAny(traits, s) <==> exists t :: 0 <= t < |traits| && s in traits[t].conflictsWithPassion
    decreases |traits|
  {
    if |traits| > 0 {
      ConflictsAnyMeaning(traits[1..], s);
      assert forall t :: 1 <= t < |traits| ==> traits[t] == traits[1..][t - 1];
    }
  }

  function MajorCount(ss: seq<SkillState>): nat
  {
    if |ss| == 0 then 0 else MajorCount(ss[..|ss| - 1]) + (if ss[|ss| - 1].passion == Major then 1 else 0)
  }

  lemma {:induction false} MajorCountUpdate(ss: seq<SkillState>, i: nat, p: Passion)
    requires i < |ss|
    ensures MajorCount(ss[i := ss[i].(passion := p)]) + (if ss[i].passion == Major then 1 else 0)
            == MajorCount(ss) + (if p == Major then 1 else 0)
    decreases |ss|
  {
    var n := |ss| - 1;
    var ss' := ss[i := ss[i].(passion := p)];
    assert ss'[..n] == if i < n then ss[..n][i := ss[i].(passion := p)] else ss[..n];
    if i < n {
      MajorCountUpdate(ss[..n], i, p);
    }
  }

  /** The stable descending order of OrderByDescending(level): level 20 first, ties by position. */
  function IndicesAt(levels: seq<SkillLevel>, lvl: int, i: nat): (r: seq<nat>)
    requires i <= |levels|
    ensures forall a :: 0 <= a < |r| ==> i <= r[a] < |levels| && levels[r[a]] == lvl
    ensures forall a, b :: 0 <= a < b < |r| ==> r[a] < r[b]
    ensures forall j :: i <= j < |levels| && levels[j] == lvl ==> j in r
    decreases |levels| - i
  {
    if i == |levels| then []
    else if levels[i] == lvl then [i] + IndicesAt(levels, lvl, i + 1)
    else IndicesAt(levels, lvl, i + 1)
  }

  function ByLevelFrom(levels: seq<SkillLevel>, lvl: int): (r: seq<nat>)
    ensures forall a :: 0 <= a < |r| ==> r[a] < |levels| && levels[r[a]] <= lvl
    ensures forall a, b :: 0 <= a < b < |r| ==>
              levels[r[a]] > levels[r[b]] || (levels[r[a]] == levels[r[b]] && r[a] < r[b])
    ensures forall j :: 0 <= j < |levels| && levels[j] <= lvl ==> j in r
    decreases lvl + 1
  {
    if lvl < 0 then []
    else
      var here := IndicesAt(levels, lvl, 0);
      var rest := ByLevelFrom(levels, lvl - 1);
      var r := here + rest;
      assert forall a :: 0 <= a < |here| ==> r[a] == here[a];
      assert forall a :: |here| <= a < |r| ==> r[a] == rest[a - |here|];
      assert forall j :: 0 <= j < |levels| && levels[j] <= lvl ==> j in here || j in rest;
      r
  }

  /** OrderByDescending(sr => sr.Level): every skill is visited; the order itself is OrderIsStableDescending. */
  function OrderByLevelDescending(levels: seq<SkillLevel>): (r: seq<nat>)
    ensures forall a :: 0 <= a < |r| ==> r[a] < |levels|
    ensures forall j :: 0 <= j < |levels| ==> j in r
  {
    ByLevelFrom(levels, MaxLevel)
  }

  /** Highest level first, ties in list order; with the coverage above, each skill exactly once. */
  lemma OrderIsStableDescending(levels: seq<SkillLevel>)
    ensures var r := OrderByLevelDescending(levels);
      forall a, b :: 0 <= a < b < |r| ==>
        levels[r[a]] > levels[r[b]] || (levels[r[a]] == levels[r[b]] && r[a] < r[b])
  {
  }

  function LevelsOf(ss: seq<SkillState>): (r: seq<SkillLevel>)
    ensures |r| == |ss| && forall i :: 0 <= i < |ss| ==> r[i] == ss[i].level
  {
    seq(|ss|, i requires 0 <= i < |ss| => ss[i].level)
  }

  /** Whether the trait at index t or a later one satisfies `p` for skill s (the inner trait loops). */
  method AnyConflict(traits: seq<PassionTrait>, s: nat) returns (flag: bool)
    ensures flag <==> ConflictsAny(traits, s)
  {
    ConflictsAnyMeaning(traits, s);
    var t := 0;
    while t < |traits|
      invariant 0 <= t <= |traits|
      invariant forall u :: 0 <= u < t ==> s !in traits[u].conflictsWithPassion
    {
      if s in traits[t].conflictsWithPassion {
        return true;
      }
      t := t + 1;
    }
    return false;
  }

  /** The first pass: one forced CreatePassion per trait requiring a passion for an enabled skill. */
  method ForcedPassions(ss0: seq<SkillState>, traits: seq<PassionTrait>, c0: Counters) returns (ss: seq<SkillState>, c: Counters)
    requires c0.majors >= 0
    requires forall i :: 0 <= i < |ss0| ==> ss0[i].passion == NoPassion
    ensures |ss| == |ss0| && c.majors >= 0
    ensures forall i :: 0 <= i < |ss| ==> ss[i].level == ss0[i].level && ss[i].disabled == ss0[i].disabled
    ensures forall i :: 0 <= i < |ss| ==>
              (ss[i].passion != NoPassion <==> !ss0[i].disabled && RequiredByAny(traits, i))
    ensures MajorCount(ss) + c.majors <= c0.majors
  {
    ss, c := ss0, c0;
    assert MajorCount(ss0) == 0 by { NoMajors(ss0); }
    var i := 0;
    while i < |ss|
      invariant 0 <= i <= |ss| == |ss0| && c.majors >= 0
      invariant forall j :: 0 <= j < |ss| ==> ss[j].level == ss0[j].level && ss[j].disabled == ss0[j].disabled
      invariant forall j :: 0 <= j < i ==> (ss[j].passion != NoPassion <==> !ss0[j].disabled && RequiredByAny(traits, j))
      invariant forall j :: i <= j < |ss| ==> ss[j].passion == NoPassion
      invariant MajorCount(ss) + c.majors <= c0.majors
    {
      if !ss[i].disabled {
        ghost var before := ss;
        var t := 0;
        while t < |traits|
          invariant 0 <= t <= |traits| && c.majors >= 0 && |ss| == |ss0| && i < |ss|
          invariant forall j :: 0 <= j < |ss| ==> ss[j].level == ss0[j].level && ss[j].disabled == ss0[j].disabled
          invariant forall j :: 0 <= j < |ss| && j != i ==> ss[j].passion == before[j].passion
          invariant ss[i].passion != NoPassion <==> exists u :: 0 <= u < t && i in traits[u].requiresPassion
          invariant MajorCount(ss) + c.majors <= c0.majors
        {
          if i in traits[t].requiresPassion {
            var r := CreatePassion(ss[i].passion, c, true);
            MajorCountUpdate(ss, i, r.0);
            ss := ss[i := ss[i].(passion := r.0)];
            c := r.1;
          }
          t := t + 1;
        }
      }
      i := i + 1;
    }
  }

  lemma {:induction false} NoMajors(ss: seq<SkillState>)
    requires forall i :: 0 <= i < |ss| ==> ss[i].passion == NoPassion
    ensures MajorCount(ss) == 0
    decreases |ss|
  {
    if |ss| > 0 {
      NoMajors(ss[..|ss| - 1]);
    }
  }

  /** Both counters are spent: CreatePassion without force hands out nothing more. */
  predicate Exhausted(c: Counters)
  {
    c.majors == 0 && c.minors <= 0
  }

  /** A skill the adult pass would give a passion to. */
  ghost predicate Eligible(disabled: bool, traits: seq<PassionTrait>, i: nat)
  {
    !disabled && !ConflictsAny(traits, i)
  }

  /** One skill of the adult pass. */
  method AdultStep(ss0: seq<SkillState>, traits: seq<PassionTrait>, c0: Counters, i: nat) returns (ss: seq<SkillState>, c: Counters)
    requires i < |ss0| && c0.majors >= 0
    ensures |ss| == |ss0| && c.majors >= 0
    ensures forall j :: 0 <= j < |ss| ==> ss[j].level == ss0[j].level && ss[j].disabled == ss0[j].disabled
    ensures forall j :: 0 <= j < |ss| && j != i ==> ss[j].passion == ss0[j].passion
    ensures ss0[i].disabled ==> ss[i].passion == ss0[i].passion
    ensures ss0[i].passion != NoPassion ==> ss[i].passion != NoPassion
    ensures Exhausted(c0) ==> Exhausted(c)
    ensures Eligible(ss0[i].disabled, traits, i) && ss[i].passion == NoPassion ==> Exhausted(c)
    ensures MajorCount(ss) + c.majors <= MajorCount(ss0) + c0.majors
  {
    ss, c := ss0, c0;
    if !ss[i].disabled {
      var flag := AnyConflict(traits, i);
      if !flag {
        var r := CreatePassion(ss[i].passion, c, false);
        MajorCountUpdate(ss, i, r.0);
        ss := ss[i := ss[i].(passion := r.0)];
        c := r.1;
      }
    }
  }

  /** The adult pass over the skills in the given order. */
  method AdultLoop(ss0: seq<SkillState>, traits: seq<PassionTrait>, c0: Counters, order: seq<nat>) returns (ss: seq<SkillState>, c: Counters)
    requires c0.majors >= 0 && forall a :: 0 <= a < |order| ==> order[a] < |ss0|
    requires forall i :: 0 <= i < |ss0| ==> ss0[i].disabled ==> ss0[i].passion == NoPassion
    ensures |ss| == |ss0| && c.majors >= 0
    ensures forall j :: 0 <= j < |ss| ==> ss[j].level == ss0[j].level && ss[j].disabled == ss0[j].disabled
    ensures forall j :: 0 <= j < |ss| ==> ss[j].disabled ==> ss[j].passion == NoPassion
    ensures forall j :: 0 <= j < |ss| ==> ss0[j].passion != NoPassion ==> ss[j].passion != NoPassion
    ensures !Exhausted(c) ==> forall a :: 0 <= a < |order| ==>
              !(Eligible(ss0[order[a]].disabled, traits, order[a]) && ss[order[a]].passion == NoPassion)
    ensures MajorCount(ss) + c.majors <= MajorCount(ss0) + c0.majors
  {
    ss, c := ss0, c0;
    var k := 0;
    while k < |order|
      invariant 0 <= k <= |order| && |ss| == |ss0| && c.majors >= 0
      invariant forall j :: 0 <= j < |ss| ==> ss[j].level == ss0[j].level && ss[j].disabled == ss0[j].disabled
      invariant forall j :: 0 <= j < |ss| ==> ss[j].disabled ==> ss[j].passion == NoPassion
      invariant forall j :: 0 <= j < |ss| ==> ss0[j].passion != NoPassion ==> ss[j].passion != NoPassion
      invariant !Exhausted(c) ==> forall a :: 0 <= a < k ==>
                  !(Eligible(ss0[order[a]].disabled, traits, order[a]) && ss[order[a]].passion == NoPassion)
      invariant MajorCount(ss) + c.majors <= MajorCount(ss0) + c0.majors
    {
      ss, c := AdultStep(ss, traits, c, order[k]);
      k := k + 1;
    }
  }

  /** The adult pass: enabled, non-conflicting skills, highest level first, each one unforced CreatePassion. */
  method AdultPassions(ss0: seq<SkillState>, traits: seq<PassionTrait>, c0: Counters) returns (ss: seq<SkillState>, c: Counters)
    requires c0.majors >= 0
    requires forall i :: 0 <= i < |ss0| ==> ss0[i].disabled ==> ss0[i].passion == NoPassion
    ensures |ss| == |ss0| && c.majors >= 0
    ensures forall i :: 0 <= i < |ss| ==> ss[i].level == ss0[i].level && ss[i].disabled == ss0[i].disabled
    ensures forall i :: 0 <= i < |ss| ==> ss[i].disabled ==> ss[i].passion == NoPassion
    ensures forall i :: 0 <= i < |ss| ==> ss0[i].passion != NoPassion ==> ss[i].passion != NoPassion
    ensures forall i :: 0 <= i < |ss| ==> Eligible(ss[i].disabled, traits, i) && ss[i].passion == NoPassion ==> Exhausted(c)
    ensures MajorCount(ss) + c.majors <= MajorCount(ss0) + c0.majors
  {
    var order := OrderByLevelDescending(LevelsOf(ss0));
    ss, c := AdultLoop(ss0, traits, c0, order);
    forall i | 0 <= i < |ss| && Eligible(ss[i].disabled, traits, i) && ss[i].passion == NoPassion
      ensures Exhausted(c)
    {
      assert i in order;
    }
  }

  /** The levels of all skills, skill def by skill def. */
  method SkillLevels(inputs: seq<SkillInput>, draws: seq<SkillDraws>) returns (levels: seq<SkillLevel>)
    requires |draws| == |inputs| && forall i :: 0 <= i < |inputs| ==> DrawsFit(inputs[i], draws[i])
    ensures |levels| == |inputs| && forall i :: 0 <= i < |inputs| ==> levels[i] == SkillLevelFor(inputs[i], draws[i])
  {
    levels := [];
    var i := 0;
    while i < |inputs|
      invariant 0 <= i <= |inputs| && |levels| == i
      invariant forall j :: 0 <= j < i ==> levels[j] == SkillLevelFor(inputs[j], draws[j])
    {
      var l := FinalLevelOfSkill(inputs[i], draws[i]);
      levels := levels + [l];
      i := i + 1;
    }
  }

  /**
   * GenerateSkills on a freshly made pawn (every passion None). The
   * growth-moment passions of pawns under 13 are not part of this model.
   */
  method GenerateSkills(inputs: seq<SkillInput>, draws: seq<SkillDraws>, disabled: seq<bool>,
                        traits: seq<PassionTrait>, ageYears: int, gaussian: real, coins: nat -> bool)
    returns (ss: seq<SkillState>, c: Counters)
    requires |draws| == |inputs| == |disabled| && forall i :: 0 <= i < |inputs| ==> DrawsFit(inputs[i], draws[i])
    ensures |ss| == |inputs|
    ensures forall i :: 0 <= i < |ss| ==> ss[i].level == SkillLevelFor(inputs[i], draws[i]) && ss[i].disabled == disabled[i]
    ensures forall i :: 0 <= i < |ss| ==> disabled[i] ==> ss[i].passion == NoPassion
    ensures forall i :: 0 <= i < |ss| ==> !disabled[i] && RequiredByAny(traits, i) ==> ss[i].passion != NoPassion
    ensures MajorCount(ss) <= Budget(InitialBudget(gaussian), coins, 0).0
    ensures ageYears < 13 ==> forall i :: 0 <= i < |ss| ==>
              (ss[i].passion != NoPassion <==> !disabled[i] && RequiredByAny(traits, i))
    ensures ageYears >= 13 ==> forall i :: 0 <= i < |ss| ==>
              Eligible(ss[i].disabled, traits, i) && ss[i].passion == NoPassion ==> Exhausted(c)
  {
    var levels := SkillLevels(inputs, draws);
    ss := seq(|inputs|, i requires 0 <= i < |inputs| => SkillState(levels[i], disabled[i], NoPassion));
    var majors, minors := PassionBudget(gaussian, coins);
    ss, c := ForcedPassions(ss, traits, Counters(majors, minors));
    if ageYears < 13 {
      return;
    }
    ss, c := AdultPassions(ss, traits, c);
  }
}
