/**
 * The trait draws of pawn generation: GenerateTraitsFor, which grows a list
 * of new traits by rejection sampling with a bounded number of iterations,
 * and TryGenerateSexualityTraitFor, a weighted choice between no
 * sexuality trait, Gay, Bisexual and Asexual.
 *
 * The pawn's traits do not change during these calls, so every engine query
 * about the pawn is a fixed function of the candidate def (and degree).
 */
module PawnTraits {
  import opened Wrappers
  import Rand

  type TraitDefId = nat

  /** The extra iterations GenerateTraitsFor allows beyond the requested count. */
  const ExtraTraitTries: int := 500

  datatype Trait = Trait(def: TraitDefId, degree: int)

  /** The parts of a PawnGenerationRequest the trait draws consult. */
  datatype TraitRequest = TraitRequest(
    disallowedTraits: set<TraitDefId>,
    requiredWorkTags: set<nat>,
    allowGay: bool,
    prohibitedTraits: set<TraitDefId>,
    factionHostileToPlayer: bool)

  /** The pawn, the engine and the def database, as seen by the trait draws. */
  datatype TraitContext = TraitContext(
    held: set<TraitDefId>,
    gay: TraitDefId,
    bisexual: TraitDefId,
    asexual: TraitDefId,
    hasOppositeGenderLoverOrEx: bool,
    growthMomentTrait: bool,
    biotechActive: bool,
    request: Option<TraitRequest>,
    disabledWorkTags: TraitDefId -> set<nat>,
    allowOnHostileSpawn: TraitDefId -> bool,
    /** Conflicts with a held trait, needs a disabled work type or tag, or forces a disabled passion. */
    rejectedByPawn: TraitDefId -> bool,
    /** A backstory disallows the def at the degree, or the trait would push the minor break threshold above 0.5. */
    rejectedAtDegree: (TraitDefId, int) -> bool)

  predicate IsSexuality(ctx: TraitContext, d: TraitDefId)
  {
    d == ctx.gay || d == ctx.bisexual || d == ctx.asexual
  }

  function DefsOf(list: seq<Trait>): (r: set<TraitDefId>)
    ensures forall t :: t in list ==> t.def in r
    ensures forall d :: d in r ==> exists t :: t in list && t.def == d
  {
    if |list| == 0 then {} else DefsOf(list[..|list| - 1]) + {list[|list| - 1].def}
  }

  /** The checks preceding the degree draw that need no request. */
  predicate RejectedOutright(ctx: TraitContext, list: seq<Trait>, d: TraitDefId)
  {
    d in ctx.held || d in DefsOf(list)
    || (d == ctx.gay && ctx.hasOppositeGenderLoverOrEx)
    || (ctx.growthMomentTrait && ctx.biotechActive && IsSexuality(ctx, d))
  }

  predicate RejectedByRequest(ctx: TraitContext, d: TraitDefId)
  {
    ctx.request.Some? &&
    var req := ctx.request.value;
    d in req.disallowedTraits
    || (req.requiredWorkTags != {} && ctx.disabledWorkTags(d) * req.requiredWorkTags != {})
    || (d == ctx.gay && !req.allowGay)
    || d in req.prohibitedTraits
    || (req.factionHostileToPlayer && !ctx.allowOnHostileSpawn(d))
  }

  /** Whether a drawn def, at its drawn degree, joins the list. */
  predicate Accepts(ctx: TraitContext, list: seq<Trait>, d: TraitDefId, degree: int)
  {
    !RejectedOutright(ctx, list, d) && !RejectedByRequest(ctx, d)
    && !ctx.rejectedByPawn(d) && !ctx.rejectedAtDegree(d, degree)
  }

  /** Everything a returned list promises. */
  ghost predicate SoundTraits(ctx: TraitContext, list: seq<Trait>)
  {
    (forall i, j :: 0 <= i < j < |list| ==> list[i].def != list[j].def)
    && (forall i :: 0 <= i < |list| ==> list[i].def !in ctx.held)
    && (forall i :: 0 <= i < |list| ==>
          ctx.request.Some? && !ctx.request.value.allowGay ==> list[i].def != ctx.gay)
    && (forall i :: 0 <= i < |list| ==>
          ctx.request.Some? ==> list[i].def !in ctx.request.value.prohibitedTraits
                                && list[i].def !in ctx.request.value.disallowedTraits)
    && (forall i :: 0 <= i < |list| ==> !ctx.rejectedByPawn(list[i].def))
  }

  lemma AcceptKeepsSound(ctx: TraitContext, list: seq<Trait>, t: Trait)
    requires SoundTraits(ctx, list) && Accepts(ctx, list, t.def, t.degree)
    ensures SoundTraits(ctx, list + [t])
  {
    assert forall i :: 0 <= i < |list| ==> list[i].def in DefsOf(list) by {
      forall i | 0 <= i < |list| ensures list[i].def in DefsOf(list) {
        assert list[i] in list;
      }
    }
  }

  /**
   * The list GenerateTraitsFor builds, from iteration counter num on: the
   * counter is incremented before it is compared, so the bodies run with
   * num + 1 up to traitCount + 499.
   */
  function TraitsFrom(ctx: TraitContext, traitCount: int, defDraw: nat -> TraitDefId, degreeDraw: nat -> int,
                      list: seq<Trait>, num: nat): (r: seq<Trait>)
    requires SoundTraits(ctx, list)
    ensures SoundTraits(ctx, r)
    ensures list <= r
    ensures |list| < traitCount ==> |r| <= traitCount
    ensures |list| >= traitCount ==> r == list
    decreases traitCount + ExtraTraitTries - num
  {
    if |list| >= traitCount || num + 1 >= traitCount + ExtraTraitTries then list
    else
      var d := defDraw(num + 1);
      var degree := degreeDraw(num + 1);
      if Accepts(ctx, list, d, degree) then
        AcceptKeepsSound(ctx, list, Trait(d, degree));
        TraitsFrom(ctx, traitCount, defDraw, degreeDraw, list + [Trait(d, degree)], num + 1)
      else TraitsFrom(ctx, traitCount, defDraw, degreeDraw, list, num + 1)
  }

  /**
   * GenerateTraitsFor. defDraw(n) is the def drawn by commonality at
   * iteration n and degreeDraw(n) the degree RandomTraitDegree then gives it;
   * iterations is the final counter and warned whether the give-up warning
   * is logged.
   */
  method GenerateTraitsFor(ctx: TraitContext, traitCount: int, defDraw: nat -> TraitDefId, degreeDraw: nat -> int)
    returns (list: seq<Trait>, iterations: nat, warned: bool)
    ensures list == TraitsFrom(ctx, traitCount, defDraw, degreeDraw, [], 0)
    ensures |list| <= traitCount || traitCount < 0
    ensures SoundTraits(ctx, list)
    ensures iterations <= traitCount + ExtraTraitTries || iterations == 0
    ensures warned <==> iterations as int >= traitCount + ExtraTraitTries
    ensures traitCount >= 0 ==> (warned <==> |list| < traitCount)
  {
    list := [];
    var num: nat := 0;
    while |list| < traitCount && num + 1 < traitCount + ExtraTraitTries
      invariant SoundTraits(ctx, list)
      invariant TraitsFrom(ctx, traitCount, defDraw, degreeDraw, list, num) == TraitsFrom(ctx, traitCount, defDraw, degreeDraw, [], 0)
      invariant |list| <= traitCount || traitCount < 0
      invariant num < traitCount + ExtraTraitTries || num == 0
      invariant |list| <= num
      decreases traitCount + ExtraTraitTries - num
    {
      num := num + 1;
      var d := defDraw(num);
      var degree := degreeDraw(num);
      if Accepts(ctx, list, d, degree) {
        AcceptKeepsSound(ctx, list, Trait(d, degree));
        list := list + [Trait(d, degree)];
      }
    }
    if |list| < traitCount {
      num := num + 1;
    }
    iterations := num;
    warned := num >= traitCount + ExtraTraitTries;
  }

  /** The growth-moment draw asks for one trait and never gets a sexuality trait under Biotech. */
  lemma GrowthMomentTraitIsNotSexuality(ctx: TraitContext, defDraw: nat -> TraitDefId, degreeDraw: nat -> int)
    requires ctx.growthMomentTrait && ctx.biotechActive
    ensures |TraitsFrom(ctx, 1, defDraw, degreeDraw, [], 0)| <= 1
    ensures forall t :: t in TraitsFrom(ctx, 1, defDraw, degreeDraw, [], 0) ==> !IsSexuality(ctx, t.def)
  {
    var r := TraitsFrom(ctx, 1, defDraw, degreeDraw, [], 0);
    GrowthDrawsNoSexuality(ctx, defDraw, degreeDraw, [], 0);
  }

  lemma {:induction false} GrowthDrawsNoSexuality(ctx: TraitContext, defDraw: nat -> TraitDefId, degreeDraw: nat -> int,
                                                  list: seq<Trait>, num: nat)
    requires ctx.growthMomentTrait && ctx.biotechActive
    requires SoundTraits(ctx, list)
    requires forall t :: t in list ==> !IsSexuality(ctx, t.def)
    ensures forall t :: t in TraitsFrom(ctx, 1, defDraw, degreeDraw, list, num) ==> !IsSexuality(ctx, t.def)
    decreases 1 + ExtraTraitTries - num
  {
    if |list| >= 1 || num + 1 >= 1 + ExtraTraitTries {
    } else {
      var d := defDraw(num + 1);
      var degree := degreeDraw(num + 1);
      if Accepts(ctx, list, d, degree) {
        AcceptKeepsSound(ctx, list, Trait(d, degree));
        GrowthDrawsNoSexuality(ctx, defDraw, degreeDraw, list + [Trait(d, degree)], num + 1);
      } else {
        GrowthDrawsNoSexuality(ctx, defDraw, degreeDraw, list, num + 1);
      }
    }
  }

  /** Gay, Bisexual and Asexual are three different defs. */
  predicate SexualityDefsDistinct(ctx: TraitContext)
  {
    ctx.gay != ctx.bisexual && ctx.gay != ctx.asexual && ctx.bisexual != ctx.asexual
  }

  /** HasSexualityTrait. */
  predicate HasSexualityTrait(ctx: TraitContext)
  {
    ctx.gay in ctx.held || ctx.bisexual in ctx.held || ctx.asexual in ctx.held
  }

  /** The summed commonality of the defs that are neither held nor a sexuality trait: the weight of "none". */
  function OtherCommonality(ctx: TraitContext, defs: seq<TraitDefId>, commonality: TraitDefId -> real): real
  {
    if |defs| == 0 then 0.0
    else
      var d := defs[|defs| - 1];
      OtherCommonality(ctx, defs[..|defs| - 1], commonality)
        + (if d !in ctx.held && !IsSexuality(ctx, d) then commonality(d) else 0.0)
  }

  /** The options of the sexuality draw, in order, with their weights. */
  function SexualityOptions(ctx: TraitContext, allowGay: bool, defs: seq<TraitDefId>, commonality: TraitDefId -> real)
    : (r: seq<(Option<TraitDefId>, real)>)
    requires SexualityDefsDistinct(ctx)
    ensures |r| == if allowGay then 4 else 3
    ensures r[0].0 == None
    ensures forall i :: 1 <= i < |r| ==> r[i].0.Some? && IsSexuality(ctx, r[i].0.value)
    ensures !allowGay ==> forall i :: 0 <= i < |r| ==> r[i].0 != Some(ctx.gay)
  {
    [(None, OtherCommonality(ctx, defs, commonality))]
    + (if allowGay then [(Some(ctx.gay), commonality(ctx.gay))] else [])
    + [(Some(ctx.bisexual), commonality(ctx.bisexual)), (Some(ctx.asexual), commonality(ctx.asexual))]
  }

  function WeightsOf(opts: seq<(Option<TraitDefId>, real)>): (r: seq<real>)
    ensures |r| == |opts| && forall i :: 0 <= i < |r| ==> r[i] == opts[i].1
  {
    if |opts| == 0 then [] else [opts[0].1] + WeightsOf(opts[1..])
  }

  /**
   * TryGenerateSexualityTraitFor: the def of the trait gained, if any. A
   * pawn that already has a sexuality trait gains none.
   */
  function SexualityTraitGained(ctx: TraitContext, allowGay: bool, defs: seq<TraitDefId>,
                                commonality: TraitDefId -> real, u: real): (r: Option<TraitDefId>)
    requires Rand.IsUnit(u) && SexualityDefsDistinct(ctx)
    ensures HasSexualityTrait(ctx) ==> r.None?
    ensures r.Some? ==> IsSexuality(ctx, r.value) && commonality(r.value) > 0.0
    ensures r.Some? && !allowGay ==> r.value != ctx.gay
  {
    if HasSexualityTrait(ctx) then None
    else
      var opts := SexualityOptions(ctx, allowGay, defs, commonality);
      var w := WeightsOf(opts);
      Rand.WeightedPickSound(w, u);
      match Rand.WeightedPick(w, u)
      case None => None
      case Some(i) => opts[i].0
  }

  /** With positive weight on some option, a pawn without a sexuality trait always draws one of the four options. */
  lemma SexualityDrawPicks(ctx: TraitContext, allowGay: bool, defs: seq<TraitDefId>, commonality: TraitDefId -> real, u: real)
    requires Rand.IsUnit(u) && SexualityDefsDistinct(ctx) && !HasSexualityTrait(ctx)
    requires commonality(ctx.bisexual) > 0.0
    ensures Rand.WeightedPick(WeightsOf(SexualityOptions(ctx, allowGay, defs, commonality)), u).Some?
  {
    var opts := SexualityOptions(ctx, allowGay, defs, commonality);
    var w := WeightsOf(opts);
    var k := if allowGay then 2 else 1;
    assert w[k] > 0.0;
    PositiveWeightSums(w, k);
    Rand.WeightedPickSound(w, u);
  }

  lemma {:induction false} PositiveWeightSums(w: seq<real>, k: nat)
    requires k < |w| && w[k] > 0.0
    ensures Rand.PositiveSum(w) > 0.0
    decreases |w|
  {
    if k < |w| - 1 {
      assert w[..|w| - 1][k] == w[k];
      PositiveWeightSums(w[..|w| - 1], k);
    }
  }
}
