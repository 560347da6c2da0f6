/**
 * GenConstruct: the rules that decide whether a new blueprint may be placed
 * over an existing thing, whether terrain supports a structure, and two
 * small lookups over construction defs.
 */
module GenConstruct {
  import opened Wrappers

  type DefId = nat
  type AffordanceId = nat
  type ThingId = nat

  datatype AltitudeLayer = Terrain | Floor | FloorEmplacement | Conduits | Item | Building
    | BuildingOnTop | Blueprint | Pawn | Projectile | Other

  datatype ThingCategory = NoCategory | PawnCategory | ItemCategory | BuildingCategory | PlantCategory | OtherCategory

  datatype BuildingProps = BuildingProps(
    isEdifice: bool,
    canBuildNonEdificesUnder: bool,
    canPlaceOverImpassablePlant: bool,
    isPlaceOverableWall: bool,
    canPlaceOverWall: bool)

  /**
   * A BuildableDef is either a TerrainDef or a ThingDef. Both carry the
   * buildable fields; `forceAllowPlaceOver` lists the defs that
   * ForceAllowPlaceOver lets this def be placed over.
   */
  datatype BuildableDef =
    | TerrainDef(
        id: DefId,
        blocksAltitudes: Option<seq<AltitudeLayer>>,
        altitudeLayer: AltitudeLayer,
        terrainAffordanceNeeded: Option<AffordanceId>,
        forceAllowPlaceOver: set<DefId>,
        affordances: set<AffordanceId>,
        changeable: bool)
    | ThingDef(
        id: DefId,
        blocksAltitudes: Option<seq<AltitudeLayer>>,
        altitudeLayer: AltitudeLayer,
        terrainAffordanceNeeded: Option<AffordanceId>,
        forceAllowPlaceOver: set<DefId>,
        everHaulable: bool,
        isBlueprint: bool,
        isFrame: bool,
        category: ThingCategory,
        impassable: bool,
        building: Option<BuildingProps>,
        everTransmitsPower: bool,
        isSmoothed: bool,
        coexistsWithFloors: bool,
        entityDefToBuild: Option<BuildableDef>)

  /** The engine's guarantees the source relies on: blueprints and frames name what they build, buildings carry building properties. */
  predicate WellFormedThingDef(d: BuildableDef)
  {
    d.ThingDef?
    && ((d.isBlueprint || d.isFrame) ==> d.entityDefToBuild.Some?)
    && (d.category == BuildingCategory ==> d.building.Some?)
  }

  predicate WellFormedNewDef(d: BuildableDef)
  {
    d.ThingDef? ==> d.category == BuildingCategory ==> d.building.Some?
  }

  function IsEdifice(d: BuildableDef): bool
    requires d.ThingDef?
  {
    d.building.Some? && d.building.value.isEdifice
  }

  /** BuiltDefOf: what a blueprint or frame will become, or the def itself. */
  function BuiltDefOf(d: BuildableDef): (r: BuildableDef)
    requires d.ThingDef?
    ensures d.entityDefToBuild.Some? ==> r == d.entityDefToBuild.value
    ensures d.entityDefToBuild.None? ==> r == d
  {
    if d.entityDefToBuild.None? then d else d.entityDefToBuild.value
  }

  function Blocks(layers: Option<seq<AltitudeLayer>>, layer: AltitudeLayer): bool
  {
    layers.Some? && layer in layers.value
  }

  /** The local function IsEdificeOverNonEdifice of CanPlaceBlueprintOver. */
  function EdificeOverNonEdifice(newDef: BuildableDef, oldDef: BuildableDef): bool
    requires newDef.ThingDef? && oldDef.ThingDef?
  {
    var built := BuiltDefOf(oldDef);
    IsEdifice(newDef)
    && ((oldDef.category == BuildingCategory && !IsEdifice(oldDef))
        || (built.ThingDef? && built.category == BuildingCategory && !IsEdifice(built)))
  }

  /** The verdict of the last block, reached when the old def is a building, blueprint or frame. */
  function StructureVerdict(newDef: BuildableDef, oldDef: BuildableDef, conduit: DefId): bool
    requires WellFormedNewDef(newDef) && WellFormedThingDef(oldDef)
  {
    var built := BuiltDefOf(oldDef);
    if newDef.ThingDef? && !IsEdifice(newDef) then
      if oldDef.building.Some? && !oldDef.building.value.canBuildNonEdificesUnder then false
      else if newDef.everTransmitsPower && oldDef.everTransmitsPower then false
      else true
    else if newDef.ThingDef? && EdificeOverNonEdifice(newDef, oldDef) then
      !(newDef.building.Some? && !newDef.building.value.canBuildNonEdificesUnder)
    else if newDef.ThingDef? && built.ThingDef? && built.building.Some?
      && (built.building.value.isPlaceOverableWall || built.isSmoothed)
      && newDef.building.Some? && newDef.building.value.canPlaceOverWall then true
    else if newDef.ThingDef? && newDef.id != conduit && built.id == conduit then true
    else if newDef.TerrainDef? && built.ThingDef? && built.coexistsWithFloors then true
    else if built.TerrainDef? && !newDef.TerrainDef? then true
    else false
  }

  /** The terrain-affordance rule for a new floor placed over an old structure. */
  function TerrainRefuses(terrain: BuildableDef, oldDef: BuildableDef): bool
    requires terrain.TerrainDef? && WellFormedThingDef(oldDef)
  {
    if oldDef.isBlueprint || oldDef.isFrame then
      var need := oldDef.entityDefToBuild.value.terrainAffordanceNeeded;
      need.Some? && need.value !in terrain.affordances
    else
      oldDef.category == BuildingCategory && oldDef.terrainAffordanceNeeded.Some?
      && oldDef.terrainAffordanceNeeded.value !in terrain.affordances
  }

  /** GenConstruct.CanPlaceBlueprintOver; `conduit` is the def id of the power conduit. */
  function CanPlaceBlueprintOver(newDef: BuildableDef, oldDef: BuildableDef, conduit: DefId): bool
    requires WellFormedNewDef(newDef) && WellFormedThingDef(oldDef)
  {
    var built := BuiltDefOf(oldDef);
    if oldDef.everHaulable then true
    else if newDef.TerrainDef? && TerrainRefuses(newDef, oldDef) then false
    else if Blocks(newDef.blocksAltitudes, oldDef.altitudeLayer) then false
    else if Blocks(built.blocksAltitudes, newDef.altitudeLayer) then false
    else if oldDef.id in newDef.forceAllowPlaceOver then true
    else if oldDef.category == PlantCategory && oldDef.impassable && newDef.ThingDef?
      && newDef.category == BuildingCategory && !newDef.building.value.canPlaceOverImpassablePlant then false
    else if oldDef.category == BuildingCategory || oldDef.isBlueprint || oldDef.isFrame then
      StructureVerdict(newDef, oldDef, conduit)
    else true
  }

  /** A haulable thing never stands in the way of a blueprint. */
  lemma HaulableAlwaysPlaceable(newDef: BuildableDef, oldDef: BuildableDef, conduit: DefId)
    requires WellFormedNewDef(newDef) && WellFormedThingDef(oldDef) && oldDef.everHaulable
    ensures CanPlaceBlueprintOver(newDef, oldDef, conduit)
  {
  }

  /** Altitude blocking, in either direction, refuses the placement even when the new def force-allows it. */
  lemma AltitudeBlockingWins(newDef: BuildableDef, oldDef: BuildableDef, conduit: DefId)
    requires WellFormedNewDef(newDef) && WellFormedThingDef(oldDef) && !oldDef.everHaulable
    requires Blocks(newDef.blocksAltitudes, oldDef.altitudeLayer)
          || Blocks(BuiltDefOf(oldDef).blocksAltitudes, newDef.altitudeLayer)
    ensures !CanPlaceBlueprintOver(newDef, oldDef, conduit)
  {
  }

  /** Without altitude or floor conflicts, a force-allowed def is always placeable. */
  lemma ForceAllowOverrides(newDef: BuildableDef, oldDef: BuildableDef, conduit: DefId)
    requires WellFormedNewDef(newDef) && WellFormedThingDef(oldDef)
    requires oldDef.id in newDef.forceAllowPlaceOver
    requires !Blocks(newDef.blocksAltitudes, oldDef.altitudeLayer)
    requires !Blocks(BuiltDefOf(oldDef).blocksAltitudes, newDef.altitudeLayer)
    requires newDef.TerrainDef? ==> !TerrainRefuses(newDef, oldDef)
    ensures CanPlaceBlueprintOver(newDef, oldDef, conduit)
  {
  }

  /** An old def that is no building, blueprint or frame blocks only through the impassable-plant rule or the earlier checks. */
  lemma NonStructureOldDef(newDef: BuildableDef, oldDef: BuildableDef, conduit: DefId)
    requires WellFormedNewDef(newDef) && WellFormedThingDef(oldDef)
    requires oldDef.category != BuildingCategory && !oldDef.isBlueprint && !oldDef.isFrame
    requires !Blocks(newDef.blocksAltitudes, oldDef.altitudeLayer)
    requires !Blocks(BuiltDefOf(oldDef).blocksAltitudes, newDef.altitudeLayer)
    requires newDef.TerrainDef? ==> !TerrainRefuses(newDef, oldDef)
    ensures CanPlaceBlueprintOver(newDef, oldDef, conduit) <==>
      oldDef.everHaulable || oldDef.id in newDef.forceAllowPlaceOver
      || !(oldDef.category == PlantCategory && oldDef.impassable && newDef.ThingDef?
           && newDef.category == BuildingCategory && !newDef.building.value.canPlaceOverImpassablePlant)
  {
  }

  /** A non-edifice over an old building: refused iff the building forbids non-edifices under it or both carry power. */
  lemma NonEdificeOverBuilding(newDef: BuildableDef, oldDef: BuildableDef, conduit: DefId)
    requires WellFormedNewDef(newDef) && WellFormedThingDef(oldDef)
    requires newDef.ThingDef? && !IsEdifice(newDef) && oldDef.category == BuildingCategory
    requires !oldDef.everHaulable && oldDef.id !in newDef.forceAllowPlaceOver
    requires !Blocks(newDef.blocksAltitudes, oldDef.altitudeLayer)
    requires !Blocks(BuiltDefOf(oldDef).blocksAltitudes, newDef.altitudeLayer)
    ensures CanPlaceBlueprintOver(newDef, oldDef, conduit) <==>
      oldDef.building.value.canBuildNonEdificesUnder
      && !(newDef.everTransmitsPower && oldDef.everTransmitsPower)
  {
  }

  // ----- lookups -----

  datatype ThingDefCount = ThingDefCount(thingDef: DefId, count: int)

  /** AmountNeededByOf: the count of the first material entry of the def, else 0. */
  function AmountNeededByOf(materials: seq<ThingDefCount>, resDef: DefId): (r: int)
    decreases |materials|
  {
    if |materials| == 0 then 0
    else if materials[0].thingDef == resDef then materials[0].count
    else AmountNeededByOf(materials[1..], resDef)
  }

  /** The lookup answers 0 when the def is not needed at all. */
  lemma {:induction false} AmountNeededAbsent(materials: seq<ThingDefCount>, resDef: DefId)
    requires forall i :: 0 <= i < |materials| ==> materials[i].thingDef != resDef
    ensures AmountNeededByOf(materials, resDef) == 0
    decreases |materials|
  {
    if |materials| > 0 {
      assert forall i :: 0 <= i < |materials| - 1 ==> materials[1..][i] == materials[i + 1];
      AmountNeededAbsent(materials[1..], resDef);
    }
  }

  /** The lookup answers with the count of the first entry of the def, whatever entries follow it. */
  lemma {:induction false} AmountNeededFirstMatch(materials: seq<ThingDefCount>, resDef: DefId, k: nat)
    requires k < |materials| && materials[k].thingDef == resDef
    requires forall i :: 0 <= i < k ==> materials[i].thingDef != resDef
    ensures AmountNeededByOf(materials, resDef) == materials[k].count
    decreases k
  {
    if k > 0 {
      assert materials[1..][k - 1] == materials[k];
      assert forall i :: 0 <= i < k - 1 ==> materials[1..][i] == materials[i + 1];
      AmountNeededFirstMatch(materials[1..], resDef, k - 1);
    }
  }

  // ----- terrain -----

  /** The cells of the rectangle a structure occupies, clipped to the map. */
  datatype ThingOnCell = ThingOnCell(id: ThingId, builtTerrainAffordances: Option<set<AffordanceId>>)
  datatype Cell = Cell(terrainAffordances: set<AffordanceId>, supportsStructure: set<AffordanceId>, things: seq<ThingOnCell>)

  /** TerrainCanSupport: every cell supports the affordance the thing needs. */
  function TerrainCanSupport(cells: seq<Cell>, need: AffordanceId): (r: bool)
    decreases |cells|
  {
    if |cells| == 0 then true
    else if need !in cells[0].supportsStructure then false
    else TerrainCanSupport(cells[1..], need)
  }

  lemma {:induction false} TerrainCanSupportExactly(cells: seq<Cell>, need: AffordanceId)
    ensures TerrainCanSupport(cells, need) <==> forall i :: 0 <= i < |cells| ==> need in cells[i].supportsStructure
    decreases |cells|
  {
    if |cells| > 0 {
      TerrainCanSupportExactly(cells[1..], need);
      assert forall i :: 1 <= i < |cells| ==> cells[1..][i - 1] == cells[i];
    }
  }

  /** One cell of CanBuildOnTerrain: its terrain, and each thing on it that builds terrain, must offer the affordance. */
  function CellAllows(c: Cell, need: AffordanceId, thingToIgnore: Option<ThingId>): bool
  {
    need in c.terrainAffordances
    && forall i :: 0 <= i < |c.things| ==>
      (Some(c.things[i].id) != thingToIgnore && c.things[i].builtTerrainAffordances.Some?
       ==> need in c.things[i].builtTerrainAffordances.value)
  }

  function CellsAllow(cells: seq<Cell>, need: AffordanceId, thingToIgnore: Option<ThingId>): (r: bool)
    decreases |cells|
  {
    if |cells| == 0 then true
    else if !CellAllows(cells[0], need, thingToIgnore) then false
    else CellsAllow(cells[1..], need, thingToIgnore)
  }

  /**
   * CanBuildOnTerrain: a floor cannot replace unchangeable terrain, and a
   * needed affordance must be offered on every occupied cell.
   */
  function CanBuildOnTerrain(entIsTerrain: bool, cellTerrainChangeable: bool, need: Option<AffordanceId>,
                             cells: seq<Cell>, thingToIgnore: Option<ThingId>): (r: bool)
  {
    if entIsTerrain && !cellTerrainChangeable then false
    else if need.Some? then CellsAllow(cells, need.value, thingToIgnore)
    else true
  }

  /** Building on terrain succeeds exactly when every occupied cell offers the affordance. */
  lemma {:induction false} CanBuildOnTerrainExactly(entIsTerrain: bool, cellTerrainChangeable: bool,
      need: AffordanceId, cells: seq<Cell>, thingToIgnore: Option<ThingId>)
    requires !entIsTerrain || cellTerrainChangeable
    ensures CanBuildOnTerrain(entIsTerrain, cellTerrainChangeable, Some(need), cells, thingToIgnore) <==>
      forall i :: 0 <= i < |cells| ==> CellAllows(cells[i], need, thingToIgnore)
  {
    CellsAllowExactly(cells, need, thingToIgnore);
  }

  lemma {:induction false} CellsAllowExactly(cells: seq<Cell>, need: AffordanceId, thingToIgnore: Option<ThingId>)
    ensures CellsAllow(cells, need, thingToIgnore) <==> forall i :: 0 <= i < |cells| ==> CellAllows(cells[i], need, thingToIgnore)
    decreases |cells|
  {
    if |cells| > 0 {
      CellsAllowExactly(cells[1..], need, thingToIgnore);
      assert forall i :: 1 <= i < |cells| ==> cells[1..][i - 1] == cells[i];
    }
  }
}
