/**
 * Recycling ("redressing") existing world pawns instead of generating new
 * ones: whether a world pawn can stand in for a request, how likely a
 * recycle is and how candidates are weighted, and the order in which
 * GenerateOrRedressPawnInternal tries the former colonists, the settlement's
 * earlier inhabitants and any world pawn before generating a new pawn.
 */
module PawnRedress {
  import opened Wrappers
  import Rand
  import Seqs
  import PawnSkills
  import PawnTraits

  type PawnId = nat
  type PartDefId = nat

  // ---------------------------------------------------------------------
  // The kind's missing parts

  /**
   * The kind's missingParts check as written: for each required part, the
   * inner loop stops at the first missing-part hediff, either claiming it or
   * rejecting the pawn, so later hediffs are never looked at. `parts` are
   * the parts' defs of the pawn's missing-part hediffs, in list order;
   * `claimed` the indices already matched.
   */
  function MissingPartsAsWritten(required: seq<PartDefId>, parts: seq<PartDefId>, claimed: set<nat>): bool
    decreases |required|
  {
    if |required| == 0 then true
    else
      match FirstHediffAsWritten(required[0], parts, 0, claimed)
      case None => false
      case Some(c) => MissingPartsAsWritten(required[1..], parts, c)
  }

  /** The inner foreach from hediff i: a match claims it and breaks; any other missing-part hediff fails. */
  function FirstHediffAsWritten(part: PartDefId, parts: seq<PartDefId>, i: nat, claimed: set<nat>): (r: Option<set<nat>>)
    requires i <= |parts|
    decreases |parts| - i
  {
    if i == |parts| then Some(claimed)
    else if part == parts[i] && i !in claimed then Some(claimed + {i})
    else None
  }

  /**
   * What the as-written loop accepts: every pawn without missing-part
   * hediffs, and otherwise only a single required part equal to the first
   * hediff's part.
   */
  lemma MissingPartsAsWrittenAccepts(required: seq<PartDefId>, parts: seq<PartDefId>)
    ensures MissingPartsAsWritten(required, parts, {}) <==>
              |required| == 0 || |parts| == 0 || (|required| == 1 && required[0] == parts[0])
  {
    if |parts| == 0 {
      NoHediffsAlwaysPass(required, {});
    } else if |required| >= 2 && required[0] == parts[0] {
      var none: set<nat> := {};
      assert FirstHediffAsWritten(required[0], parts, 0, none) == Some(none + {0});
      assert none + {0} == {0};
      assert required[1..][0] == required[1];
    }
  }

  lemma {:induction false} NoHediffsAlwaysPass(required: seq<PartDefId>, claimed: set<nat>)
    ensures MissingPartsAsWritten(required, [], claimed)
    decreases |required|
  {
    if |required| > 0 {
      NoHediffsAlwaysPass(required[1..], claimed);
    }
  }

  /** A pawn missing an arm and a leg is rejected for a kind that needs only the leg missing. */
  lemma AsWrittenRejectsSecondHediff()
    ensures !MissingPartsAsWritten([2], [1, 2], {})
    ensures MissingPartsMatched([2], [1, 2])
  {
  }

  /** A pawn missing nothing is accepted for a kind that needs a part missing. */
  lemma AsWrittenAcceptsNoMissingPart()
    ensures MissingPartsAsWritten([2], [], {})
    ensures !MissingPartsMatched([2], [])
  {
  }

  /**
   * The evidently intended check: each required part claims a distinct
   * missing-part hediff of that part's def, searching the whole list.
   */
  function MissingPartsMatched(required: seq<PartDefId>, parts: seq<PartDefId>): bool
    decreases |required|
  {
    if |required| == 0 then true
    else required[0] in parts && MissingPartsMatched(required[1..], Seqs.RemoveFirst(parts, required[0]))
  }

  /** The intended check passes exactly when the pawn misses each part at least as often as the kind requires. */
  lemma {:induction false} MissingPartsMatchedMeaning(required: seq<PartDefId>, parts: seq<PartDefId>)
    ensures MissingPartsMatched(required, parts) <==>
              forall d :: Seqs.Occurrences(required, d) <= Seqs.Occurrences(parts, d)
    decreases |required|
  {
    if |required| > 0 {
      var x := required[0];
      var rest := Seqs.RemoveFirst(parts, x);
      MissingPartsMatchedMeaning(required[1..], rest);
      Seqs.OccurrencesIn(parts, x);
      if x in parts {
        forall d ensures Seqs.Occurrences(rest, d) == Seqs.Occurrences(parts, d) - (if d == x then 1 else 0) {
          Seqs.OccurrencesRemoveFirst(parts, x, d);
        }
        if MissingPartsMatched(required, parts) {
          forall d ensures Seqs.Occurrences(required, d) <= Seqs.Occurrences(parts, d) {
            assert Seqs.Occurrences(required[1..], d) <= Seqs.Occurrences(rest, d);
          }
        } else {
          var d :| Seqs.Occurrences(required[1..], d) > Seqs.Occurrences(rest, d);
          assert Seqs.Occurrences(required, d) > Seqs.Occurrences(parts, d);
        }
      } else {
        assert Seqs.Occurrences(required, x) >= 1;
      }
    }
  }

  // ---------------------------------------------------------------------
  // IsValidCandidateToRedress

  /** A skill record of the world pawn. */
  datatype PawnSkill = PawnSkill(level: int, totallyDisabled: bool)

  /** The facts about a world pawn the check reads; the validators' verdicts on it are fields too. */
  datatype WorldPawn = WorldPawn(
    race: nat, faction: Option<nat>, dead: bool, destroyed: bool, hasBrain: bool, downed: bool,
    bleedRateTotal: real, isFlesh: bool, humanlike: bool, relatedToAnyone: bool,
    traits: seq<PawnTraits.Trait>, addictedToAnything: bool, hair: nat, pregnant: bool,
    skill: nat -> PawnSkill, skillLevels: seq<PawnSkills.SkillLevel>,
    missingParts: seq<PartDefId>,
    hasGenes: bool, xenogenes: set<nat>, endogenes: set<nat>, xenotype: nat, xenotypeCanGenerateAsCombatant: bool,
    developmentalStage: nat, gender: nat, ageBiologicalYearsFloat: real, ageChronologicalYears: int,
    lastName: Option<string>, hasRoyalty: bool, titles: set<nat>, mainTitleSeniority: Option<int>,
    hasIdeo: bool, hasBackstory: bool, violentDisabled: bool, toolUser: bool, capableOfManipulation: bool,
    kindDef: nat, combinedDisabledWorkTags: set<nat>,
    passesPreGearValidator: bool, passesPostGearValidator: bool, passesRedressValidator: bool,
    scenarioAllowsAsStarter: bool)

  /** A kind's trait requirement: the def, and the degree when one is given. */
  datatype TraitRequirement = TraitRequirement(def: PawnTraits.TraitDefId, degree: Option<int>)

  /** The request and its kind, as the check reads them. */
  datatype RedressRequest = RedressRequest(
    kindRace: nat, kindDef: nat, faction: Option<nat>, worldPawnFactionDoesntMatter: bool,
    allowDead: bool, allowDowned: bool, canGeneratePawnRelations: bool, allowGay: bool, gay: PawnTraits.TraitDefId,
    allowAddictions: bool, prohibitedTraits: Option<set<PawnTraits.TraitDefId>>, kindForcedHair: Option<nat>,
    biotechActive: bool, allowPregnant: bool, kindSkills: Option<seq<PawnSkills.SkillRange>>,
    kindMissingParts: Option<seq<PartDefId>>, kindForcedTraits: Option<seq<TraitRequirement>>,
    forcedTraits: Option<seq<PawnTraits.TraitDefId>>,
    forcedXenogenes: Option<set<nat>>, forcedEndogenes: Option<set<nat>>, forcedXenotype: Option<nat>,
    useFactionXenotypes: bool, factionXenotypeSet: Option<set<nat>>, kindXenotypeSet: Option<set<nat>>,
    mustBeCapableOfViolence: bool, allowedStages: set<nat>, kindFixedGender: Option<nat>,
    fixedBiologicalAge: Option<real>, fixedChronologicalAge: Option<real>, kindChronologicalAgeRange: Option<(real, real)>,
    fixedGender: Option<nat>, fixedLastName: Option<string>, fixedTitle: Option<nat>,
    forceNoIdeo: bool, forceNoBackstory: bool, kindMinTitleSeniority: Option<int>, playerStarter: bool,
    kindRequiredWorkTags: set<nat>, kindMinBestSkillLevel: int, kindMinTotalSkillLevels: int,
    kindTitleRequired: bool, kindTitleSelectOneNonEmpty: bool, forceDead: bool)

  function TraitDefs(ts: seq<PawnTraits.Trait>): set<PawnTraits.TraitDefId>
  {
    set t | t in ts :: t.def
  }

  predicate MeetsRequirement(p: WorldPawn, t: TraitRequirement)
  {
    exists i :: 0 <= i < |p.traits| && p.traits[i].def == t.def && (t.degree.None? || p.traits[i].degree == t.degree.value)
  }

  /** Race, faction, life, health, relations, traits, addictions, hair and pregnancy. */
  predicate BasicChecks(p: WorldPawn, req: RedressRequest)
  {
    p.race == req.kindRace
    && (req.worldPawnFactionDoesntMatter || p.faction == req.faction)
    && (req.allowDead || (!p.dead && !p.destroyed && p.hasBrain))
    && (req.allowDowned || !p.downed)
    && p.bleedRateTotal <= 0.001
    && (req.canGeneratePawnRelations || !p.isFlesh || !p.relatedToAnyone)
    && (req.allowGay || !p.humanlike || req.gay !in TraitDefs(p.traits))
    && (req.allowAddictions || !p.addictedToAnything)
    && (req.prohibitedTraits.None? || forall t :: t in req.prohibitedTraits.value ==> t !in TraitDefs(p.traits))
    && (req.kindForcedHair.None? || p.hair == req.kindForcedHair.value)
    && (!req.biotechActive || req.allowPregnant || !p.humanlike || !p.pregnant)
  }

  /** The kind's skill ranges, missing parts and forced traits, and the request's forced traits. */
  predicate KindChecks(p: WorldPawn, req: RedressRequest)
  {
    (req.kindSkills.None? ||
      forall i :: 0 <= i < |req.kindSkills.value| ==>
        var s := p.skill(req.kindSkills.value[i].skill);
        !s.totallyDisabled && req.kindSkills.value[i].min <= s.level <= req.kindSkills.value[i].max)
    && (req.kindMissingParts.None? || MissingPartsMatched(req.kindMissingParts.value, p.missingParts))
    && (req.kindForcedTraits.None? || forall i :: 0 <= i < |req.kindForcedTraits.value| ==> MeetsRequirement(p, req.kindForcedTraits.value[i]))
    && (req.forcedTraits.None? || forall i :: 0 <= i < |req.forcedTraits.value| ==> req.forcedTraits.value[i] in TraitDefs(p.traits))
  }

  /** The Biotech gene and xenotype checks. */
  predicate GeneChecks(p: WorldPawn, req: RedressRequest)
  {
    !req.biotechActive ||
    ((req.forcedXenogenes.None? || (p.hasGenes && req.forcedXenogenes.value <= p.xenogenes))
     && (req.forcedEndogenes.None? || (p.hasGenes && req.forcedEndogenes.value <= p.endogenes))
     && (req.forcedXenotype.None? || (p.hasGenes && p.xenotype == req.forcedXenotype.value))
     && (!p.hasGenes ||
          ((!req.useFactionXenotypes || req.factionXenotypeSet.None? || p.xenotype in req.factionXenotypeSet.value)
           && (req.kindXenotypeSet.None? || p.xenotype in req.kindXenotypeSet.value)
           && (!req.mustBeCapableOfViolence || p.xenotypeCanGenerateAsCombatant))))
  }

  /** Stage, gender, validators, ages, name, title, ideo and backstory. */
  predicate IdentityChecks(p: WorldPawn, req: RedressRequest)
  {
    p.developmentalStage in req.allowedStages
    && (req.kindFixedGender.None? || p.gender == req.kindFixedGender.value)
    && p.passesPreGearValidator && p.passesPostGearValidator
    && (req.fixedBiologicalAge.None? || p.ageBiologicalYearsFloat == req.fixedBiologicalAge.value)
    && (req.fixedChronologicalAge.None? || p.ageChronologicalYears as real == req.fixedChronologicalAge.value)
    && (req.kindChronologicalAgeRange.None? ||
          req.kindChronologicalAgeRange.value.0 <= p.ageChronologicalYears as real <= req.kindChronologicalAgeRange.value.1)
    && (req.fixedGender.None? || p.gender == req.fixedGender.value)
    && (req.fixedLastName.None? || p.lastName == req.fixedLastName)
    && (req.fixedTitle.None? || (p.hasRoyalty && req.fixedTitle.value in p.titles))
    && (!req.forceNoIdeo || !p.hasIdeo)
    && (!req.forceNoBackstory || !p.hasBackstory)
    && (req.kindMinTitleSeniority.None? ||
          (p.hasRoyalty && p.mainTitleSeniority.Some? && p.mainTitleSeniority.value >= req.kindMinTitleSeniority.value))
    && (!req.playerStarter || p.scenarioAllowsAsStarter)
  }

  /** Violence, work tags, minimum skills, titles, the redress validator and ForceDead. The work-tag check appears twice in the chain; once suffices. */
  predicate RoleChecks(p: WorldPawn, req: RedressRequest)
  {
    (!req.mustBeCapableOfViolence || (!p.violentDisabled && (!p.toolUser || p.capableOfManipulation)))
    && (req.kindRequiredWorkTags == {} || p.kindDef == req.kindDef || p.combinedDisabledWorkTags * req.kindRequiredWorkTags == {})
    && PawnSkills.HasCorrectMinBestSkillLevel(p.skillLevels, req.kindMinBestSkillLevel)
    && PawnSkills.HasCorrectMinTotalSkillLevels(p.skillLevels, req.kindMinTotalSkillLevels)
    && !(p.hasRoyalty && p.titles != {} && !req.kindTitleRequired && !req.kindTitleSelectOneNonEmpty && req.kindDef != p.kindDef)
    && !(p.hasRoyalty && req.kindDef == p.kindDef && req.kindTitleSelectOneNonEmpty && p.titles == {})
    && p.passesRedressValidator
    && (!req.forceDead || p.dead)
  }

  /** IsValidCandidateToRedress, with the kind's missing parts matched as intended. */
  function IsValidCandidateToRedress(p: WorldPawn, req: RedressRequest): (r: bool)
    ensures r ==> p.race == req.kindRace && p.bleedRateTotal <= 0.001
    ensures r && !req.allowDead ==> !p.dead && !p.destroyed
    ensures r && req.forceDead ==> p.dead
    ensures r && req.kindMissingParts.Some? ==>
              forall d :: Seqs.Occurrences(req.kindMissingParts.value, d) <= Seqs.Occurrences(p.missingParts, d)
    ensures r && req.kindSkills.Some? ==>
              forall i :: 0 <= i < |req.kindSkills.value| ==>
                req.kindSkills.value[i].min <= p.skill(req.kindSkills.value[i].skill).level <= req.kindSkills.value[i].max
    ensures r && req.forcedTraits.Some? ==> forall i :: 0 <= i < |req.forcedTraits.value| ==> req.forcedTraits.value[i] in TraitDefs(p.traits)
    ensures r && req.prohibitedTraits.Some? ==> forall t :: t in req.prohibitedTraits.value ==> t !in TraitDefs(p.traits)
    ensures r ==> 0 < req.kindMinTotalSkillLevels ==> PawnSkills.Sum(p.skillLevels) >= req.kindMinTotalSkillLevels
  {
    PawnSkills.TotalSkillCheck(p.skillLevels, req.kindMinTotalSkillLevels);
    var ok := BasicChecks(p, req) && KindChecks(p, req) && GeneChecks(p, req) && IdentityChecks(p, req) && RoleChecks(p, req);
    if req.kindMissingParts.Some? then
      MissingPartsMatchedMeaning(req.kindMissingParts.value, p.missingParts);
      ok
    else ok
  }

  // ---------------------------------------------------------------------
  // The recycle chance and the candidate weight

  const BaseRedressChance: real := 0.02
  const MaxRedressChance: real := 0.8

  /** ChanceToRedressAnyWorldPawn, from the count of free world pawns. */
  function ChanceToRedressAnyWorldPawn(freeWorldPawns: nat, minChance: Option<real>): (r: real)
    ensures BaseRedressChance <= r
    ensures minChance.None? ==> r <= MaxRedressChance
    ensures minChance.Some? ==> r >= minChance.value
    ensures minChance.Some? && minChance.value <= MaxRedressChance ==> r <= MaxRedressChance
  {
    var grown := BaseRedressChance + 0.01 * (freeWorldPawns as real / 10.0);
    var num := if grown < MaxRedressChance then grown else MaxRedressChance;
    if minChance.Some? && minChance.value > num then minChance.value else num
  }

  /** More free world pawns never lower the chance; from 780 on it is at its cap. */
  lemma RedressChanceGrows(a: nat, b: nat, minChance: Option<real>)
    requires a <= b
    ensures ChanceToRedressAnyWorldPawn(a, minChance) <= ChanceToRedressAnyWorldPawn(b, minChance)
    ensures b >= 780 && minChance.None? ==> ChanceToRedressAnyWorldPawn(b, minChance) == MaxRedressChance
  {
  }

  /** WorldPawnSelectionWeight. */
  function WorldPawnSelectionWeight(isFlesh: bool, everSeenByPlayer: bool, relatedToAnyone: bool): (r: real)
    ensures r > 0.0
    ensures r == 0.1 <==> isFlesh && !everSeenByPlayer && relatedToAnyone
    ensures r != 0.1 ==> r == 1.0
  {
    if isFlesh && !everSeenByPlayer && relatedToAnyone then 0.1 else 1.0
  }

  // ---------------------------------------------------------------------
  // GenerateOrRedressPawnInternal

  /** A valid candidate with the facts the branches filter and weight by. */
  datatype Candidate = Candidate(id: PawnId, everColonistOrTameAnimal: bool, isFlesh: bool, everSeenByPlayer: bool, relatedToAnyone: bool)

  function Weight(c: Candidate): real
  {
    WorldPawnSelectionWeight(c.isFlesh, c.everSeenByPlayer, c.relatedToAnyone)
  }

  function Weights(cs: seq<Candidate>): (r: seq<real>)
    ensures |r| == |cs| && forall i :: 0 <= i < |cs| ==> r[i] == Weight(cs[i]) && r[i] > 0.0
  {
    if |cs| == 0 then [] else Weights(cs[..|cs| - 1]) + [Weight(cs[|cs| - 1])]
  }

  function FormerColonists(cs: seq<Candidate>): (r: seq<Candidate>)
    ensures forall c :: c in r <==> c in cs && c.everColonistOrTameAnimal
  {
    if |cs| == 0 then []
    else FormerColonists(cs[..|cs| - 1]) + (if cs[|cs| - 1].everColonistOrTameAnimal then [cs[|cs| - 1]] else [])
  }

  function AmongInhabitants(cs: seq<Candidate>, inhabitants: seq<PawnId>): (r: seq<Candidate>)
    ensures forall c :: c in r <==> c in cs && c.id in inhabitants
  {
    if |cs| == 0 then []
    else AmongInhabitants(cs[..|cs| - 1], inhabitants) + (if cs[|cs| - 1].id in inhabitants then [cs[|cs| - 1]] else [])
  }

  /** TryRandomElementByWeight over candidates. */
  function PickCandidate(cs: seq<Candidate>, u: real): (r: Option<Candidate>)
    requires Rand.IsUnit(u)
    ensures r.Some? <==> |cs| > 0
    ensures r.Some? ==> r.value in cs
  {
    var w := Weights(cs);
    Rand.AllPositiveSum(w);
    Rand.WeightedPickSound(w, u);
    match Rand.WeightedPick(w, u)
    case None => None
    case Some(i) => Some(cs[i])
  }

  datatype RedressFlags = RedressFlags(
    newbornOnly: bool, forceGenerateNewPawn: bool, forceRedressWorldPawnIfFormerColonist: bool,
    inhabitant: bool, freeWorldPawns: nat, minChanceToRedress: Option<real>)

  datatype RedressDraws = RedressDraws(formerColonist: real, inhabitant: real, chance: real, anyPawn: real)

  predicate RedressDrawsFit(d: RedressDraws)
  {
    Rand.IsUnit(d.formerColonist) && Rand.IsUnit(d.inhabitant) && Rand.IsUnit(d.chance) && Rand.IsUnit(d.anyPawn)
  }

  datatype Origin = FormerColonist | PreviousInhabitant | AnyWorldPawn

  datatype Outcome = Redressed(id: PawnId, origin: Origin) | Generated(id: PawnId) | NoPawn

  /** The world pawn recycled, if any; `settlement` is the earlier inhabitants of the request's tile, when it has a settlement. */
  function RedressChoice(f: RedressFlags, valid: seq<Candidate>, settlement: Option<seq<PawnId>>, d: RedressDraws): (r: Option<(Candidate, Origin)>)
    requires RedressDrawsFit(d)
    ensures r.Some? ==> r.value.0 in valid
    ensures r.Some? ==> !f.newbornOnly && !f.forceGenerateNewPawn
    ensures r.Some? && r.value.1 == FormerColonist ==> r.value.0.everColonistOrTameAnimal
    ensures r.Some? && r.value.1 == PreviousInhabitant ==> settlement.Some? && r.value.0.id in settlement.value
  {
    if f.newbornOnly || f.forceGenerateNewPawn then None
    else
      var first := if f.forceRedressWorldPawnIfFormerColonist then PickCandidate(FormerColonists(valid), d.formerColonist) else None;
      if first.Some? then Some((first.value, FormerColonist))
      else
        var second := if f.inhabitant && settlement.Some? && |settlement.value| > 0
                      then PickCandidate(AmongInhabitants(valid, settlement.value), d.inhabitant) else None;
        if second.Some? then Some((second.value, PreviousInhabitant))
        else if Rand.Chance(ChanceToRedressAnyWorldPawn(f.freeWorldPawns, f.minChanceToRedress), d.chance) then
          var third := PickCandidate(valid, d.anyPawn);
          if third.Some? then Some((third.value, AnyWorldPawn)) else None
        else None
  }

  /** A requested former-colonist recycle succeeds whenever a valid former colonist exists. */
  lemma FormerColonistPreferred(f: RedressFlags, valid: seq<Candidate>, settlement: Option<seq<PawnId>>, d: RedressDraws, c: Candidate)
    requires RedressDrawsFit(d) && !f.newbornOnly && !f.forceGenerateNewPawn && f.forceRedressWorldPawnIfFormerColonist
    requires c in valid && c.everColonistOrTameAnimal
    ensures RedressChoice(f, valid, settlement, d).Some?
    ensures RedressChoice(f, valid, settlement, d).value.1 == FormerColonist
  {
    assert c in FormerColonists(valid);
  }

  /** When the recycle chance comes up, some pawn is recycled whenever any candidate is valid. */
  lemma RecycleWhenChanceHits(f: RedressFlags, valid: seq<Candidate>, settlement: Option<seq<PawnId>>, d: RedressDraws)
    requires RedressDrawsFit(d) && !f.newbornOnly && !f.forceGenerateNewPawn && |valid| > 0
    requires d.chance < ChanceToRedressAnyWorldPawn(f.freeWorldPawns, f.minChanceToRedress)
    ensures RedressChoice(f, valid, settlement, d).Some?
  {
  }

  /** The outcome, given the result of GenerateNewPawnInternal for the fall-back. */
  function RedressOutcome(f: RedressFlags, valid: seq<Candidate>, settlement: Option<seq<PawnId>>, d: RedressDraws, generated: Option<PawnId>): Outcome
    requires RedressDrawsFit(d)
  {
    match RedressChoice(f, valid, settlement, d)
    case Some(pick) => Redressed(pick.0.id, pick.1)
    case None => if generated.Some? then Generated(generated.value) else NoPawn
  }

  /** The world's registries the method changes: the world pawns and the request tile's settlement's earlier inhabitants. */
  class WorldPawnRegistry {
    var worldPawns: set<PawnId>
    var settlement: Option<seq<PawnId>>

    constructor (pawns: set<PawnId>, inhabitantsAtTile: Option<seq<PawnId>>)
      ensures worldPawns == pawns && settlement == inhabitantsAtTile
    {
      worldPawns := pawns;
      settlement := inhabitantsAtTile;
    }

    /**
     * GenerateOrRedressPawnInternal. A recycled pawn leaves the world
     * pawns; a newly generated inhabitant joins its settlement's list.
     */
    method GenerateOrRedressPawnInternal(f: RedressFlags, valid: seq<Candidate>, d: RedressDraws, generated: Option<PawnId>)
      returns (outcome: Outcome)
      requires RedressDrawsFit(d)
      modifies this
      ensures outcome == RedressOutcome(f, valid, old(settlement), d, generated)
      ensures outcome.Redressed? ==> worldPawns == old(worldPawns) - {outcome.id} && settlement == old(settlement)
      ensures outcome.Generated? ==> worldPawns == old(worldPawns)
      ensures outcome.Generated? && f.inhabitant && old(settlement).Some? ==> settlement == Some(old(settlement).value + [outcome.id])
      ensures outcome.Generated? && !(f.inhabitant && old(settlement).Some?) ==> settlement == old(settlement)
      ensures outcome.NoPawn? ==> worldPawns == old(worldPawns) && settlement == old(settlement)
    {
      var choice := RedressChoice(f, valid, settlement, d);
      if choice.Some? {
        worldPawns := worldPawns - {choice.value.0.id};
        return Redressed(choice.value.0.id, choice.value.1);
      }
      if generated.None? {
        return NoPawn;
      }
      if f.inhabitant && settlement.Some? {
        settlement := Some(settlement.value + [generated.value]);
      }
      return Generated(generated.value);
    }
  }
}
