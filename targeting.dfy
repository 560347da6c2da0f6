/**
 * TargetingParameters: the settings an ability, verb or order uses to decide
 * whether a target (a map location or a thing) may be chosen, and the preset
 * settings the game builds for its common orders.
 */
module Targeting {
  import opened Wrappers

  type ThingId = nat
  type FactionId = nat
  type IdeoId = nat
  type DefId = nat

  datatype ThingCategory = NoCategory | Pawn | Item | Building | Plant | Projectile | Filth
    | Gas | Attachment | Mote | Ethereal | PsychicEmitter

  /** The race of a corpse's inner pawn. */
  datatype Race = Race(isMechanoid: bool, animal: bool, humanlike: bool)

  /** What the target checks ask of a pawn. */
  datatype PawnFacts = PawnFacts(
    downed: bool,
    dead: bool,
    nonHumanlikeOrWildMan: bool,
    isWildMan: bool,
    isMechanoid: bool,
    isAnimal: bool,
    mechCanBeRepaired: bool,
    isColonistPlayerControlled: bool,
    isColonist: bool,
    hasHostFaction: bool,
    isPrisonerOfColony: bool,
    prisonerIsSecure: bool,
    isSlaveOfColony: bool,
    isSlave: bool,
    isGuilty: bool,
    inAggroMentalState: bool,
    psychicSensitivity: real,
    homeFactionHostileToPlayer: bool,
    ideo: Option<IdeoId>,
    isBloodfeeder: bool)

  datatype ThingInfo = ThingInfo(
    id: ThingId,
    def: DefId,
    category: ThingCategory,
    isDoor: bool,
    isFire: bool,
    isAnimaTree: bool,
    hitPoints: int,
    maxHitPoints: int,
    flammableNow: bool,
    selectableByMapClick: bool,
    faction: Option<FactionId>,
    affectsRegions: bool,
    isAutoAttackableMapObject: bool,
    corpseOf: Option<Race>,
    pawn: Option<PawnFacts>)

  /** A thing is a pawn exactly when its category says so: the cast to Pawn never fails. */
  predicate WellFormedThing(t: ThingInfo)
  {
    (t.category == Pawn <==> t.pawn.Some?) && (t.corpseOf.Some? ==> t.category == Item)
  }

  /** A target is a thing or, when there is none, a bare map location. */
  datatype Target = Target(thing: Option<ThingInfo>)

  predicate WellFormedTarget(t: Target) { t.thing.Some? ==> WellFormedThing(t.thing.value) }

  /** The object asking for targets, as far as the same-ideoligion check can see it. */
  datatype TargetingSource = NoSource | VerbWithCaster(casterIdeo: Option<IdeoId>) | IncompatibleSource

  /** The active expansions the checks consult. */
  datatype Expansions = Expansions(royalty: bool, biotech: bool)

  datatype Params = Params(
    canTargetLocations: bool,
    canTargetSelf: bool,
    canTargetPawns: bool,
    canTargetFires: bool,
    canTargetBuildings: bool,
    canTargetItems: bool,
    canTargetAnimals: bool,
    canTargetHumans: bool,
    canTargetMechs: bool,
    canTargetPlants: bool,
    onlyTargetFactions: Option<set<Option<FactionId>>>,
    validator: Option<Target -> bool>,
    onlyTargetFlammables: bool,
    targetSpecificThing: Option<ThingId>,
    mustBeSelectable: bool,
    neverTargetDoors: bool,
    neverTargetIncapacitated: bool,
    neverTargetHostileFaction: bool,
    onlyTargetSameIdeo: bool,
    onlyTargetThingsAffectingRegions: bool,
    onlyTargetDamagedThings: bool,
    mapObjectTargetsMustBeAutoAttackable: bool,
    onlyTargetIncapacitatedPawns: bool,
    onlyTargetColonistsOrPrisoners: bool,
    onlyTargetColonistsOrPrisonersOrSlaves: bool,
    onlyTargetColonistsOrPrisonersOrSlavesAllowMinorMentalBreaks: bool,
    onlyTargetControlledPawns: bool,
    onlyTargetColonists: bool,
    onlyTargetPrisonersOfColony: bool,
    onlyTargetPsychicSensitive: bool,
    onlyTargetAnimaTrees: bool,
    canTargetBloodfeeders: bool,
    onlyRepairableMechs: bool,
    thingCategory: ThingCategory,
    onlyTargetDoors: bool,
    canTargetCorpses: bool)

  /** A freshly constructed TargetingParameters: the field initialisers of the class. */
  function Default(): (p: Params)
    ensures p.canTargetPawns && p.canTargetBuildings && p.canTargetAnimals && p.canTargetHumans
    ensures p.canTargetMechs && p.mapObjectTargetsMustBeAutoAttackable && p.canTargetBloodfeeders
    ensures !p.canTargetLocations && !p.canTargetItems && !p.canTargetPlants && !p.canTargetCorpses
    ensures p.validator.None? && p.targetSpecificThing.None? && p.thingCategory == NoCategory
  {
    Params(
      canTargetLocations := false, canTargetSelf := false, canTargetPawns := true,
      canTargetFires := false, canTargetBuildings := true, canTargetItems := false,
      canTargetAnimals := true, canTargetHumans := true, canTargetMechs := true,
      canTargetPlants := false, onlyTargetFactions := None, validator := None,
      onlyTargetFlammables := false, targetSpecificThing := None, mustBeSelectable := false,
      neverTargetDoors := false, neverTargetIncapacitated := false,
      neverTargetHostileFaction := false, onlyTargetSameIdeo := false,
      onlyTargetThingsAffectingRegions := false, onlyTargetDamagedThings := false,
      mapObjectTargetsMustBeAutoAttackable := true, onlyTargetIncapacitatedPawns := false,
      onlyTargetColonistsOrPrisoners := false, onlyTargetColonistsOrPrisonersOrSlaves := false,
      onlyTargetColonistsOrPrisonersOrSlavesAllowMinorMentalBreaks := false,
      onlyTargetControlledPawns := false, onlyTargetColonists := false,
      onlyTargetPrisonersOfColony := false, onlyTargetPsychicSensitive := false,
      onlyTargetAnimaTrees := false, canTargetBloodfeeders := true, onlyRepairableMechs := false,
      thingCategory := NoCategory, onlyTargetDoors := false, canTargetCorpses := false)
  }

  predicate ValidatorAccepts(p: Params, t: Target)
  {
    p.validator.None? || p.validator.value(t)
  }

  /** The filters every thing passes through before its kind is looked at. */
  predicate PassesThingFilters(p: Params, th: ThingInfo)
  {
    !(p.neverTargetDoors && th.isDoor)
    && !(p.onlyTargetDamagedThings && th.hitPoints == th.maxHitPoints)
    && !(p.onlyTargetFlammables && !th.flammableNow)
    && !(p.mustBeSelectable && !th.selectableByMapClick)
    && !(p.onlyTargetColonistsOrPrisoners && th.category != Pawn)
    && !(p.onlyTargetColonistsOrPrisonersOrSlaves && th.category != Pawn)
    && !(p.onlyTargetDoors && !th.isDoor)
  }

  /** The corpse rules: a corpse of a race the parameters exclude is refused. */
  function CorpseVerdict(p: Params, race: Race): bool
  {
    if !p.canTargetMechs && race.isMechanoid then false
    else if !p.canTargetAnimals && race.animal then false
    else if !p.canTargetHumans && race.humanlike then false
    else true
  }

  /** The pawn rules of CanTarget, in the order the source applies them. */
  function PawnVerdict(p: Params, th: ThingInfo, pawn: PawnFacts, source: TargetingSource, mods: Expansions): bool
  {
    if pawn.downed && p.neverTargetIncapacitated then false
    else if !pawn.downed && p.onlyTargetIncapacitatedPawns then false
    else if p.onlyTargetFactions.Some? && th.faction !in p.onlyTargetFactions.value then false
    else if pawn.nonHumanlikeOrWildMan && th.faction.Some? && pawn.isMechanoid && !p.canTargetMechs then false
    else if pawn.nonHumanlikeOrWildMan && th.faction.Some? && pawn.isMechanoid
      && p.onlyRepairableMechs && !pawn.mechCanBeRepaired then false
    else if pawn.nonHumanlikeOrWildMan && !(th.faction.Some? && pawn.isMechanoid) && !p.canTargetAnimals then false
    else if !pawn.nonHumanlikeOrWildMan && !p.canTargetHumans then false
    else if p.onlyTargetControlledPawns && !pawn.isColonistPlayerControlled then false
    else if p.onlyTargetColonists && (!pawn.isColonist || pawn.hasHostFaction) then false
    else if p.onlyTargetPrisonersOfColony && !pawn.isPrisonerOfColony then false
    else if p.onlyTargetColonistsOrPrisoners && !pawn.isColonistPlayerControlled && !pawn.isPrisonerOfColony then false
    else if p.onlyTargetColonistsOrPrisonersOrSlaves && !pawn.isColonistPlayerControlled
      && !pawn.isPrisonerOfColony && !pawn.isSlaveOfColony then false
    else if p.onlyTargetColonistsOrPrisonersOrSlavesAllowMinorMentalBreaks
      && !pawn.isPrisonerOfColony && !pawn.isSlaveOfColony
      && (!pawn.isColonist || (pawn.hasHostFaction && !pawn.isSlave)) then false
    else if p.onlyTargetColonistsOrPrisonersOrSlavesAllowMinorMentalBreaks && pawn.inAggroMentalState then false
    else if p.onlyTargetPsychicSensitive && pawn.psychicSensitivity <= 0.0 then false
    else if p.neverTargetHostileFaction && !pawn.isPrisonerOfColony && !pawn.isSlaveOfColony
      && pawn.homeFactionHostileToPlayer then false
    else if p.onlyTargetSameIdeo && source.VerbWithCaster? && source.casterIdeo != pawn.ideo then false
    else if !p.canTargetBloodfeeders && mods.biotech && pawn.isBloodfeeder then false
    else true
  }

  /** TargetingParameters.CanTarget. The error logs of the same-ideoligion check are left out. */
  function CanTarget(p: Params, t: Target, source: TargetingSource, mods: Expansions): (r: bool)
    requires WellFormedTarget(t)
    ensures r ==> ValidatorAccepts(p, t)
    ensures r && t.thing.Some? ==> PassesThingFilters(p, t.thing.value)
  {
    if !ValidatorAccepts(p, t) then false
    else if t.thing.None? then p.canTargetLocations
    else
      var th := t.thing.value;
      if !PassesThingFilters(p, th) then false
      else if p.canTargetCorpses && th.corpseOf.Some? then CorpseVerdict(p, th.corpseOf.value)
      else if p.targetSpecificThing == Some(th.id) then true
      else if p.canTargetFires && th.isFire then true
      else if p.canTargetPawns && th.category == Pawn then PawnVerdict(p, th, th.pawn.value, source, mods)
      else if p.canTargetBuildings && th.category == Building then
        !(p.onlyTargetThingsAffectingRegions && !th.affectsRegions)
        && !(p.onlyTargetFactions.Some? && th.faction !in p.onlyTargetFactions.value)
      else if p.canTargetPlants && th.category == Plant then
        !(mods.royalty && p.onlyTargetAnimaTrees && !th.isAnimaTree)
      else if p.canTargetItems then
        !(p.mapObjectTargetsMustBeAutoAttackable && !th.isAutoAttackableMapObject)
        && (p.thingCategory == NoCategory || p.thingCategory == th.category)
      else false
  }

  // ----- general properties of CanTarget -----

  /** A map location is accepted exactly when locations are allowed and the validator agrees. */
  lemma LocationTargets(p: Params, source: TargetingSource, mods: Expansions)
    ensures CanTarget(p, Target(None), source, mods) <==> p.canTargetLocations && ValidatorAccepts(p, Target(None))
  {
  }

  /** Incapacitation: a downed pawn is refused under neverTargetIncapacitated, a standing one under onlyTargetIncapacitatedPawns, unless it is the specific thing. */
  lemma IncapacitationRules(p: Params, th: ThingInfo, source: TargetingSource, mods: Expansions)
    requires WellFormedThing(th) && th.category == Pawn && p.canTargetPawns
    requires p.targetSpecificThing != Some(th.id) && !(p.canTargetFires && th.isFire)
    ensures CanTarget(p, Target(Some(th)), source, mods) && th.pawn.value.downed ==> !p.neverTargetIncapacitated
    ensures CanTarget(p, Target(Some(th)), source, mods) && !th.pawn.value.downed ==> !p.onlyTargetIncapacitatedPawns
  {
  }

  /** A bloodfeeder is never accepted as a pawn while Biotech is active and bloodfeeders are excluded. */
  lemma BloodfeedersExcluded(p: Params, th: ThingInfo, source: TargetingSource)
    requires WellFormedThing(th) && th.category == Pawn && p.canTargetPawns
    requires th.pawn.value.isBloodfeeder && !p.canTargetBloodfeeders
    requires p.targetSpecificThing != Some(th.id) && !(p.canTargetFires && th.isFire)
    ensures !CanTarget(p, Target(Some(th)), source, Expansions(false, true))
  {
  }

  /** Doors: under neverTargetDoors no door is accepted, under onlyTargetDoors nothing else is. */
  lemma DoorRules(p: Params, th: ThingInfo, source: TargetingSource, mods: Expansions)
    requires WellFormedThing(th)
    ensures CanTarget(p, Target(Some(th)), source, mods) && th.isDoor ==> !p.neverTargetDoors
    ensures CanTarget(p, Target(Some(th)), source, mods) && !th.isDoor ==> !p.onlyTargetDoors
  {
  }

  /** With corpses allowed, a corpse past the filters is decided by its inner pawn's race alone. */
  lemma CorpsesDecidedByRace(p: Params, th: ThingInfo, source: TargetingSource, mods: Expansions)
    requires WellFormedThing(th) && p.canTargetCorpses && th.corpseOf.Some?
    requires ValidatorAccepts(p, Target(Some(th))) && PassesThingFilters(p, th)
    ensures CanTarget(p, Target(Some(th)), source, mods) <==>
      var race := th.corpseOf.value;
      !(!p.canTargetMechs && race.isMechanoid) && !(!p.canTargetAnimals && race.animal)
      && !(!p.canTargetHumans && race.humanlike)
  {
  }

  /** The specific thing, and a fire when fires are allowed, are accepted once the filters pass. */
  lemma ShortcutsAccepted(p: Params, th: ThingInfo, source: TargetingSource, mods: Expansions)
    requires WellFormedThing(th) && !(p.canTargetCorpses && th.corpseOf.Some?)
    requires ValidatorAccepts(p, Target(Some(th))) && PassesThingFilters(p, th)
    requires p.targetSpecificThing == Some(th.id) || (p.canTargetFires && th.isFire)
    ensures CanTarget(p, Target(Some(th)), source, mods)
  {
  }

  /** Any other thing that is no pawn gets in only through the building, plant or item rule, each behind its flag. */
  lemma OtherThingsNeedTheirFlag(p: Params, th: ThingInfo, source: TargetingSource, mods: Expansions)
    requires WellFormedThing(th) && th.category != Pawn && !(p.canTargetCorpses && th.corpseOf.Some?)
    requires p.targetSpecificThing != Some(th.id) && !(p.canTargetFires && th.isFire)
    ensures CanTarget(p, Target(Some(th)), source, mods) ==>
      (p.canTargetBuildings && th.category == Building) || (p.canTargetPlants && th.category == Plant)
      || p.canTargetItems
  {
  }

  // ----- the preset parameters -----

  function ForSelf(self: ThingId): (p: Params)
    ensures p.targetSpecificThing == Some(self) && !p.canTargetPawns && !p.canTargetBuildings
  {
    Default().(targetSpecificThing := Some(self), canTargetPawns := false, canTargetBuildings := false,
      mapObjectTargetsMustBeAutoAttackable := false)
  }

  /** ForSelf chooses the pawn itself and nothing else. */
  lemma ForSelfExactly(self: ThingId, t: Target, source: TargetingSource, mods: Expansions)
    requires WellFormedTarget(t)
    ensures CanTarget(ForSelf(self), t, source, mods) <==> t.thing.Some? && t.thing.value.id == self
  {
  }

  /** The arrest validator: another pawn that the arrester may arrest, unless it is downed and guilty. */
  function ForArrest(arrester: ThingId, canBeArrestedBy: ThingInfo -> bool): (p: Params)
    ensures p.canTargetPawns && !p.canTargetBuildings && p.validator.Some?
  {
    Default().(canTargetPawns := true, canTargetBuildings := false,
      mapObjectTargetsMustBeAutoAttackable := false,
      validator := Some((t: Target) =>
        t.thing.Some? && t.thing.value.pawn.Some? && t.thing.value.id != arrester
        && canBeArrestedBy(t.thing.value)
        && (!t.thing.value.pawn.value.downed || !t.thing.value.pawn.value.isGuilty)))
  }

  /** No one arrests themself. */
  lemma ArresterNeverTargetsSelf(arrester: ThingId, canBeArrestedBy: ThingInfo -> bool, th: ThingInfo,
                                 source: TargetingSource, mods: Expansions)
    requires WellFormedThing(th) && th.id == arrester
    ensures !CanTarget(ForArrest(arrester, canBeArrestedBy), Target(Some(th)), source, mods)
  {
  }

  /** The hostile-attack validator: non-deconstructible attackable buildings, hostile things, animals and wild men. */
  function ForAttackHostile(nonDeconstructibleAttackable: ThingInfo -> bool, hostileToPlayer: ThingInfo -> bool): (p: Params)
    ensures p.canTargetPawns && p.canTargetBuildings && p.canTargetItems && p.mapObjectTargetsMustBeAutoAttackable
  {
    Default().(canTargetPawns := true, canTargetBuildings := true, canTargetItems := true,
      mapObjectTargetsMustBeAutoAttackable := true,
      validator := Some((t: Target) =>
        t.thing.Some?
        && (nonDeconstructibleAttackable(t.thing.value) || hostileToPlayer(t.thing.value)
            || (t.thing.value.pawn.Some? && t.thing.value.pawn.value.nonHumanlikeOrWildMan))))
  }

  /** Hostile attack chooses only things its validator names: non-deconstructible attackable buildings, hostile things, animals or wild men. */
  lemma AttackHostileTargets(nonDeconstructibleAttackable: ThingInfo -> bool, hostileToPlayer: ThingInfo -> bool,
                             t: Target, source: TargetingSource, mods: Expansions)
    requires WellFormedTarget(t)
    ensures CanTarget(ForAttackHostile(nonDeconstructibleAttackable, hostileToPlayer), t, source, mods) ==>
      t.thing.Some?
      && (nonDeconstructibleAttackable(t.thing.value) || hostileToPlayer(t.thing.value)
          || (t.thing.value.category == Pawn && t.thing.value.pawn.value.nonHumanlikeOrWildMan))
  {
  }

  function ForAttackAny(): (p: Params)
    ensures p.canTargetPawns && p.canTargetBuildings && p.canTargetItems && p.mapObjectTargetsMustBeAutoAttackable
  {
    Default().(canTargetPawns := true, canTargetBuildings := true, canTargetItems := true,
      mapObjectTargetsMustBeAutoAttackable := true)
  }

  /** Attacking anything: an item or other map object must be auto-attackable. */
  lemma AttackAnyItemsMustBeAttackable(th: ThingInfo, source: TargetingSource, mods: Expansions)
    requires WellFormedThing(th) && th.category != Pawn && th.category != Building && !th.isFire
    ensures CanTarget(ForAttackAny(), Target(Some(th)), source, mods) <==> th.isAutoAttackableMapObject
  {
  }

  function ForRescue(): (p: Params)
    ensures p.canTargetPawns && p.onlyTargetIncapacitatedPawns && !p.canTargetBuildings
  {
    Default().(canTargetPawns := true, onlyTargetIncapacitatedPawns := true, canTargetBuildings := false,
      mapObjectTargetsMustBeAutoAttackable := false)
  }

  /** Only downed pawns can be rescued. */
  lemma RescueOnlyDowned(t: Target, source: TargetingSource, mods: Expansions)
    requires WellFormedTarget(t)
    ensures CanTarget(ForRescue(), t, source, mods) ==>
      t.thing.Some? && t.thing.value.category == Pawn && t.thing.value.pawn.value.downed
  {
  }

  function ForStrip(canBeStrippedByColony: ThingInfo -> bool): (p: Params)
    ensures p.canTargetPawns && p.canTargetItems && p.validator.Some?
  {
    Default().(canTargetPawns := true, canTargetItems := true, mapObjectTargetsMustBeAutoAttackable := false,
      validator := Some((t: Target) => t.thing.Some? && canBeStrippedByColony(t.thing.value)))
  }

  /** Stripping chooses only things the colony may strip. */
  lemma StripOnlyStrippable(canBeStrippedByColony: ThingInfo -> bool, t: Target, source: TargetingSource, mods: Expansions)
    requires WellFormedTarget(t)
    ensures CanTarget(ForStrip(canBeStrippedByColony), t, source, mods) ==>
      t.thing.Some? && canBeStrippedByColony(t.thing.value)
  {
  }

  function ForCarry(): (p: Params)
    ensures p.canTargetPawns && p.onlyTargetIncapacitatedPawns && !p.canTargetBuildings
  {
    Default().(canTargetPawns := true, canTargetMechs := true, canTargetBuildings := false,
      onlyTargetIncapacitatedPawns := true)
  }

  /** Carrying chooses downed pawns only, mechanoids included. */
  lemma CarryOnlyDowned(t: Target, source: TargetingSource, mods: Expansions)
    requires WellFormedTarget(t)
    ensures CanTarget(ForCarry(), t, source, mods) ==>
      t.thing.Some? && t.thing.value.category == Pawn && t.thing.value.pawn.value.downed
  {
  }

  function ForDraftedCarryBed(isValidBed: ThingInfo -> bool): (p: Params)
    ensures !p.canTargetPawns && !p.canTargetItems && p.canTargetBuildings
  {
    Default().(canTargetPawns := false, canTargetItems := false, canTargetBuildings := true,
      validator := Some((t: Target) => t.thing.Some? && isValidBed(t.thing.value)))
  }

  /** A drafted carry to bed chooses a building that is a valid bed, nothing else. */
  lemma DraftedCarryBedOnlyBeds(isValidBed: ThingInfo -> bool, t: Target, source: TargetingSource, mods: Expansions)
    requires WellFormedTarget(t)
    ensures CanTarget(ForDraftedCarryBed(isValidBed), t, source, mods) ==>
      t.thing.Some? && t.thing.value.category == Building && isValidBed(t.thing.value)
  {
  }

  function ForDraftedCarryTransporter(hasTransporter: ThingInfo -> bool): (p: Params)
    ensures !p.canTargetPawns && p.canTargetItems && p.canTargetBuildings
  {
    Default().(canTargetPawns := false, canTargetItems := true, canTargetBuildings := true,
      validator := Some((t: Target) => t.thing.Some? && hasTransporter(t.thing.value)))
  }

  /**
   * A drafted carry to a transporter chooses a thing with a transporter; one
   * that is no building gets in through the item rule, so it must be
   * auto-attackable, and that holds for a pawn too.
   */
  lemma DraftedCarryTransporterTargets(hasTransporter: ThingInfo -> bool, t: Target, source: TargetingSource, mods: Expansions)
    requires WellFormedTarget(t)
    ensures CanTarget(ForDraftedCarryTransporter(hasTransporter), t, source, mods) ==>
      t.thing.Some? && hasTransporter(t.thing.value)
      && (t.thing.value.category != Building ==> t.thing.value.isAutoAttackableMapObject)
  {
  }

  function ForDraftedCarryCryptosleepCasket(isCasket: ThingInfo -> bool): (p: Params)
    ensures !p.canTargetPawns && p.canTargetItems && p.canTargetBuildings
  {
    Default().(canTargetPawns := false, canTargetItems := true, canTargetBuildings := true,
      validator := Some((t: Target) => t.thing.Some? && isCasket(t.thing.value)))
  }

  /** A drafted carry to a casket chooses a cryptosleep casket, by the same rules as the transporter preset. */
  lemma DraftedCarryCasketTargets(isCasket: ThingInfo -> bool, t: Target, source: TargetingSource, mods: Expansions)
    requires WellFormedTarget(t)
    ensures CanTarget(ForDraftedCarryCryptosleepCasket(isCasket), t, source, mods) ==>
      t.thing.Some? && isCasket(t.thing.value)
      && (t.thing.value.category != Building ==> t.thing.value.isAutoAttackableMapObject)
  {
  }

  function ForTrade(canTradeNow: ThingInfo -> bool): (p: Params)
    ensures p.canTargetPawns && !p.canTargetBuildings
  {
    Default().(canTargetPawns := true, canTargetBuildings := false, mapObjectTargetsMustBeAutoAttackable := false,
      validator := Some((t: Target) => t.thing.Some? && canTradeNow(t.thing.value)))
  }

  /** Trading chooses pawns that can trade now. */
  lemma TradeOnlyTraders(canTradeNow: ThingInfo -> bool, t: Target, source: TargetingSource, mods: Expansions)
    requires WellFormedTarget(t)
    ensures CanTarget(ForTrade(canTradeNow), t, source, mods) ==>
      t.thing.Some? && t.thing.value.category == Pawn && canTradeNow(t.thing.value)
  {
  }

  function ForDropPodsDestination(isGoodDropSpot: Target -> bool): (p: Params)
    ensures p.canTargetLocations && !p.canTargetPawns && !p.canTargetBuildings && !p.canTargetItems
  {
    Default().(canTargetLocations := true, canTargetSelf := false, canTargetPawns := false,
      canTargetFires := false, canTargetBuildings := false, canTargetItems := false,
      validator := Some(isGoodDropSpot))
  }

  /** Drop pods only land on a good drop spot of the map, never on a thing. */
  lemma DropPodsOnlyLocations(isGoodDropSpot: Target -> bool, t: Target, source: TargetingSource, mods: Expansions)
    requires WellFormedTarget(t)
    ensures CanTarget(ForDropPodsDestination(isGoodDropSpot), t, source, mods) <==> t.thing.None? && isGoodDropSpot(t)
  {
  }

  function ForQuestPawnsWhoWillJoinColony(willJoinIfRescued: ThingInfo -> bool): (p: Params)
    ensures p.canTargetPawns && !p.canTargetBuildings
  {
    Default().(canTargetPawns := true, canTargetBuildings := false, mapObjectTargetsMustBeAutoAttackable := false,
      validator := Some((t: Target) =>
        t.thing.Some? && t.thing.value.pawn.Some? && !t.thing.value.pawn.value.dead
        && willJoinIfRescued(t.thing.value)))
  }

  /** The quest preset chooses living pawns that will join the colony when rescued. */
  lemma QuestJoinersAlive(willJoinIfRescued: ThingInfo -> bool, t: Target, source: TargetingSource, mods: Expansions)
    requires WellFormedTarget(t)
    ensures CanTarget(ForQuestPawnsWhoWillJoinColony(willJoinIfRescued), t, source, mods) ==>
      t.thing.Some? && t.thing.value.category == Pawn && !t.thing.value.pawn.value.dead
      && willJoinIfRescued(t.thing.value)
  {
  }

  function ForOpen(canOpen: ThingInfo -> bool): (p: Params)
    ensures !p.canTargetPawns && p.canTargetBuildings
  {
    Default().(canTargetPawns := false, canTargetBuildings := true, mapObjectTargetsMustBeAutoAttackable := false,
      validator := Some((t: Target) => t.thing.Some? && canOpen(t.thing.value)))
  }

  /** Opening chooses buildings that can be opened. */
  lemma OpenOnlyOpenableBuildings(canOpen: ThingInfo -> bool, t: Target, source: TargetingSource, mods: Expansions)
    requires WellFormedTarget(t)
    ensures CanTarget(ForOpen(canOpen), t, source, mods) ==>
      t.thing.Some? && t.thing.value.category == Building && canOpen(t.thing.value)
  {
  }

  function ForShuttle(hauler: ThingId): (p: Params)
    ensures p.canTargetPawns && !p.canTargetBuildings
  {
    Default().(canTargetPawns := true, canTargetBuildings := false, mapObjectTargetsMustBeAutoAttackable := false,
      validator := Some((t: Target) =>
        t.thing.Some? && t.thing.value.pawn.Some? && !t.thing.value.pawn.value.dead && t.thing.value.id != hauler
        && (t.thing.value.pawn.value.downed
            || (if t.thing.value.pawn.value.isPrisonerOfColony then t.thing.value.pawn.value.prisonerIsSecure
                else t.thing.value.pawn.value.isAnimal || t.thing.value.pawn.value.isWildMan))))
  }

  /** Loading a shuttle chooses living pawns other than the hauler: downed ones, secure prisoners, animals or wild men. */
  lemma ShuttleTargets(hauler: ThingId, t: Target, source: TargetingSource, mods: Expansions)
    requires WellFormedTarget(t)
    ensures CanTarget(ForShuttle(hauler), t, source, mods) ==>
      t.thing.Some? && t.thing.value.category == Pawn && t.thing.value.id != hauler
      && !t.thing.value.pawn.value.dead
      && (t.thing.value.pawn.value.downed || t.thing.value.pawn.value.prisonerIsSecure
          || t.thing.value.pawn.value.isAnimal || t.thing.value.pawn.value.isWildMan)
  {
  }

  function ForBuilding(def: Option<DefId>): (p: Params)
    ensures !p.canTargetPawns && !p.canTargetItems && p.canTargetBuildings
  {
    Default().(canTargetPawns := false, canTargetItems := false, canTargetBuildings := true,
      validator := Some((t: Target) => t.thing.Some? && (def.None? || t.thing.value.def == def.value)))
  }

  /** The building preset accepts buildings, of the given def when one is given, and nothing else that is not a corpse or fire rule. */
  lemma ForBuildingAcceptsBuildingsOfDef(def: Option<DefId>, t: Target, source: TargetingSource, mods: Expansions)
    requires WellFormedTarget(t)
    ensures CanTarget(ForBuilding(def), t, source, mods) ==>
      t.thing.Some? && t.thing.value.category == Building && (def.Some? ==> t.thing.value.def == def.value)
  {
  }

  function ForTend(isQuestLodger: ThingInfo -> bool, player: FactionId): (p: Params)
    ensures p.canTargetPawns && !p.canTargetBuildings && !p.canTargetMechs
  {
    Default().(canTargetPawns := true, canTargetBuildings := false, canTargetMechs := false,
      validator := Some((t: Target) =>
        t.thing.Some? && t.thing.value.pawn.Some? && !t.thing.value.pawn.value.isWildMan
        && (t.thing.value.pawn.value.downed || t.thing.value.pawn.value.isColonist
            || isQuestLodger(t.thing.value) || t.thing.value.pawn.value.isPrisonerOfColony
            || t.thing.value.pawn.value.isSlaveOfColony
            || (t.thing.value.faction == Some(player) && t.thing.value.pawn.value.isAnimal))))
  }

  /** Tending never chooses a wild man, and a standing pawn only when it belongs to the colony or lodges with it. */
  lemma TendTargets(isQuestLodger: ThingInfo -> bool, player: FactionId, t: Target, source: TargetingSource, mods: Expansions)
    requires WellFormedTarget(t)
    ensures CanTarget(ForTend(isQuestLodger, player), t, source, mods) ==>
      t.thing.Some? && t.thing.value.category == Pawn && !t.thing.value.pawn.value.isWildMan
      && (!t.thing.value.pawn.value.downed ==>
            t.thing.value.pawn.value.isColonist || isQuestLodger(t.thing.value)
            || t.thing.value.pawn.value.isPrisonerOfColony || t.thing.value.pawn.value.isSlaveOfColony
            || (t.thing.value.faction == Some(player) && t.thing.value.pawn.value.isAnimal))
  {
  }

  function ForRepair(pawnCanRepairEver: ThingInfo -> bool): (p: Params)
    ensures !p.canTargetPawns && p.canTargetBuildings
  {
    Default().(canTargetPawns := false,
      validator := Some((t: Target) => t.thing.Some? && pawnCanRepairEver(t.thing.value)))
  }

  /** Repairing chooses buildings the repairer can ever repair. */
  lemma RepairOnlyRepairableBuildings(pawnCanRepairEver: ThingInfo -> bool, t: Target, source: TargetingSource, mods: Expansions)
    requires WellFormedTarget(t)
    ensures CanTarget(ForRepair(pawnCanRepairEver), t, source, mods) ==>
      t.thing.Some? && t.thing.value.category == Building && pawnCanRepairEver(t.thing.value)
  {
  }

  function ForCarryToBiosculpterPod(): (p: Params)
    ensures p.canTargetPawns && p.onlyTargetColonistsOrPrisoners && !p.canTargetBuildings
  {
    Default().(canTargetPawns := true, onlyTargetColonistsOrPrisoners := true, canTargetBuildings := false,
      mapObjectTargetsMustBeAutoAttackable := false)
  }

  /** Only pawns that are player-controlled colonists or prisoners of the colony are carried to a pod. */
  lemma BiosculpterCarryTargets(t: Target, source: TargetingSource, mods: Expansions)
    requires WellFormedTarget(t)
    ensures CanTarget(ForCarryToBiosculpterPod(), t, source, mods) ==>
      t.thing.Some? && t.thing.value.category == Pawn
      && (t.thing.value.pawn.value.isColonistPlayerControlled || t.thing.value.pawn.value.isPrisonerOfColony)
  {
  }

  function ForXenogermAbsorption(hasReimplanter: ThingInfo -> bool): (p: Params)
    ensures p.canTargetPawns && !p.canTargetBuildings
  {
    Default().(canTargetPawns := true, canTargetBuildings := false, mapObjectTargetsMustBeAutoAttackable := false,
      validator := Some((t: Target) =>
        t.thing.Some? && t.thing.value.pawn.Some? && hasReimplanter(t.thing.value)
        && ((t.thing.value.pawn.value.isPrisonerOfColony && t.thing.value.pawn.value.prisonerIsSecure)
            || t.thing.value.pawn.value.downed)))
  }

  /** Xenogerm absorption chooses carriers of the reimplanter gene that are downed or secure prisoners. */
  lemma XenogermAbsorptionTargets(hasReimplanter: ThingInfo -> bool, t: Target, source: TargetingSource, mods: Expansions)
    requires WellFormedTarget(t)
    ensures CanTarget(ForXenogermAbsorption(hasReimplanter), t, source, mods) ==>
      t.thing.Some? && t.thing.value.category == Pawn && hasReimplanter(t.thing.value)
      && (t.thing.value.pawn.value.downed
          || (t.thing.value.pawn.value.isPrisonerOfColony && t.thing.value.pawn.value.prisonerIsSecure))
  {
  }

  function ForCarryDeathresterToBed(deathresting: ThingInfo -> bool): (p: Params)
    ensures p.canTargetPawns && p.onlyTargetColonistsOrPrisoners && !p.canTargetMechs && !p.canTargetAnimals
  {
    Default().(canTargetPawns := true, onlyTargetColonistsOrPrisoners := true, canTargetMechs := false,
      canTargetAnimals := false, canTargetBuildings := false,
      validator := Some((t: Target) => t.thing.Some? && t.thing.value.pawn.Some? && deathresting(t.thing.value)))
  }

  /** Carrying a deathrester chooses deathresting colonists or prisoners of the colony. */
  lemma DeathresterTargets(deathresting: ThingInfo -> bool, t: Target, source: TargetingSource, mods: Expansions)
    requires WellFormedTarget(t)
    ensures CanTarget(ForCarryDeathresterToBed(deathresting), t, source, mods) ==>
      t.thing.Some? && t.thing.value.category == Pawn && deathresting(t.thing.value)
      && (t.thing.value.pawn.value.isColonistPlayerControlled || t.thing.value.pawn.value.isPrisonerOfColony)
  {
  }

  function ForBabyCare(): (p: Params)
    ensures p.canTargetPawns && p.canTargetHumans && !p.canTargetAnimals && !p.canTargetMechs
  {
    Default().(canTargetLocations := false, canTargetSelf := false, canTargetPawns := true,
      canTargetFires := false, canTargetBuildings := false, canTargetItems := false,
      canTargetAnimals := false, canTargetHumans := true, canTargetMechs := false, canTargetPlants := false)
  }

  /** Baby care chooses humanlike pawns only. */
  lemma BabyCareOnlyHumanlike(t: Target, source: TargetingSource, mods: Expansions)
    requires WellFormedTarget(t)
    ensures CanTarget(ForBabyCare(), t, source, mods) ==>
      t.thing.Some? && t.thing.value.category == Pawn && !t.thing.value.pawn.value.nonHumanlikeOrWildMan
  {
  }

  function ForRomance(): (p: Params)
    ensures p.canTargetPawns && p.onlyTargetColonists && !p.canTargetAnimals && !p.canTargetMechs
  {
    ForBabyCare().(onlyTargetColonists := true)
  }

  /** Romance chooses humanlike colonists that are not guests. */
  lemma RomanceOnlyColonists(t: Target, source: TargetingSource, mods: Expansions)
    requires WellFormedTarget(t)
    ensures CanTarget(ForRomance(), t, source, mods) ==>
      t.thing.Some? && t.thing.value.category == Pawn && !t.thing.value.pawn.value.nonHumanlikeOrWildMan
      && t.thing.value.pawn.value.isColonist && !t.thing.value.pawn.value.hasHostFaction
  {
  }

  function ForBloodfeeding(isBloodfeedMode: ThingInfo -> bool): (p: Params)
    ensures p.canTargetPawns && !p.canTargetBloodfeeders && p.onlyTargetPrisonersOfColony
  {
    Default().(canTargetPawns := true, canTargetBloodfeeders := false, canTargetBuildings := false,
      canTargetMechs := false, onlyTargetPrisonersOfColony := true,
      validator := Some((t: Target) =>
        t.thing.Some? && t.thing.value.pawn.Some? && t.thing.value.pawn.value.isPrisonerOfColony
        && t.thing.value.pawn.value.prisonerIsSecure && isBloodfeedMode(t.thing.value)))
  }

  /** Bloodfeeding chooses secure prisoners of the colony, never a fellow bloodfeeder while Biotech is active. */
  lemma BloodfeedingTargets(isBloodfeedMode: ThingInfo -> bool, t: Target, source: TargetingSource)
    requires WellFormedTarget(t)
    ensures CanTarget(ForBloodfeeding(isBloodfeedMode), t, source, Expansions(false, true)) ==>
      t.thing.Some? && t.thing.value.category == Pawn && t.thing.value.pawn.value.isPrisonerOfColony
      && t.thing.value.pawn.value.prisonerIsSecure && !t.thing.value.pawn.value.isBloodfeeder
  {
  }

  function ForColonist(): (p: Params)
    ensures p.canTargetPawns && !p.canTargetBuildings && p.onlyTargetColonists
  {
    Default().(canTargetPawns := true, canTargetBuildings := false, onlyTargetColonists := true)
  }

  /** ForColonist chooses non-guest colonists. */
  lemma ColonistOnlyColonists(t: Target, source: TargetingSource, mods: Expansions)
    requires WellFormedTarget(t) && (t.thing.Some? ==> t.thing.value.category == Pawn)
    ensures CanTarget(ForColonist(), t, source, mods) ==>
      t.thing.Some? && t.thing.value.pawn.value.isColonist && !t.thing.value.pawn.value.hasHostFaction
  {
  }

  function ForMech(): (p: Params)
    ensures p.canTargetPawns && p.canTargetMechs && !p.canTargetHumans && !p.canTargetAnimals
  {
    Default().(canTargetPawns := true, canTargetBuildings := false, canTargetHumans := false,
      canTargetMechs := true, canTargetAnimals := false, onlyTargetColonists := false)
  }

  /** ForMech chooses mechanoids that belong to a faction; wild or humanlike pawns are refused. */
  lemma MechOnlyFactionMechs(t: Target, source: TargetingSource, mods: Expansions)
    requires WellFormedTarget(t) && (t.thing.Some? ==> t.thing.value.category == Pawn)
    ensures CanTarget(ForMech(), t, source, mods) ==>
      t.thing.Some? && t.thing.value.pawn.value.nonHumanlikeOrWildMan && t.thing.value.pawn.value.isMechanoid
      && t.thing.value.faction.Some?
  {
  }
}
