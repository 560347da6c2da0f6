/**
 * RecipeDefGenerator: the recipes implied by thing defs. Every def with a
 * recipe maker gets a "Make_" recipe, and a bulk one when the maker asks
 * for it; every drug gets an "Administer_" recipe. Bulk recipes scale their
 * work, products and ingredients by the bulk count.
 *
 * A RecipeDef is an object whose fields the generator assigns one by one;
 * translation of labels is not modelled (a label is the text handed to the
 * translator).
 */
module RecipeGenerator {
  import opened Wrappers

  type DefId = nat

  datatype ThingDefCount = ThingDefCount(thingDef: DefId, count: int)

  /** The part of RecipeMakerProperties the generator scales. */
  datatype RecipeMaker = RecipeMaker(displayPriority: int, workAmount: int, productCount: int,
                                     targetCountAdjustment: int, bulkRecipeCount: int)

  /**
   * The thing-def properties the generator reads. `costList` is what
   * CostList returns under the current difficulty; `workToMake` is the
   * WorkToMake stat the recipe falls back on.
   */
  datatype ThingDef = ThingDef(id: DefId, defName: string, thingLabel: string, recipeMaker: Option<RecipeMaker>,
                               madeFromStuff: bool, costStuffCount: int, costList: Option<seq<ThingDefCount>>,
                               hasCostListForDifficulty: bool, isDrug: bool, baseIngestTicks: int,
                               isFleshPawn: bool, workToMake: real)

  /** An ingredient filter rule: everything the def can be made of, or one def. */
  datatype FilterRule = AllowAllWhoCanMake(def: DefId) | Allow(def: DefId)

  datatype IngredientCount = IngredientCount(baseCount: real, filter: FilterRule)

  // ---------------------------------------------------------------------
  // What a "Make_" recipe holds

  function MakeDefName(def: ThingDef, adjustedCount: int): string
  {
    "Make_" + def.defName + (if adjustedCount != 1 then "Bulk" else "")
  }

  /** Decimal notation of an integer, as in string concatenation. */
  function IntToString(n: int): string
    decreases if n < 0 then 1 - n else n
  {
    if n < 0 then "-" + IntToString(-n)
    else if n < 10 then [['0','1','2','3','4','5','6','7','8','9'][n]]
    else IntToString(n / 10) + IntToString(n % 10)
  }

  /** The text the recipe's label and job string are translated from. */
  function MakeLabelText(def: ThingDef, adjustedCount: int): string
  {
    def.thingLabel + (if adjustedCount != 1 then " x" + IntToString(adjustedCount) else "")
  }

  /**
   * The recipe's work amount: the maker's, scaled; a negative (unset) amount
   * on a bulk recipe becomes the scaled WorkToMake stat.
   */
  function MakeWorkAmount(def: ThingDef, m: RecipeMaker, adjustedCount: int): real
  {
    var w := (m.workAmount * adjustedCount) as real;
    if adjustedCount != 1 && w < 0.0 then def.workToMake * adjustedCount as real else w
  }

  /** One cost entry as an ingredient, scaled by the count. */
  function CostIngredient(c: ThingDefCount, adjustedCount: int): IngredientCount
  {
    IngredientCount((c.count * adjustedCount) as real, Allow(c.thingDef))
  }

  function CostIngredients(cs: seq<ThingDefCount>, adjustedCount: int): (r: seq<IngredientCount>)
    ensures |r| == |cs|
    ensures forall k :: 0 <= k < |cs| ==> r[k] == CostIngredient(cs[k], adjustedCount)
  {
    if |cs| == 0 then [] else CostIngredients(cs[..|cs| - 1], adjustedCount) + [CostIngredient(cs[|cs| - 1], adjustedCount)]
  }

  function StuffIngredients(def: ThingDef, adjustedCount: int): seq<IngredientCount>
  {
    if def.madeFromStuff then [IngredientCount((def.costStuffCount * adjustedCount) as real, AllowAllWhoCanMake(def.id))]
    else []
  }

  /** The ingredients SetIngredients leaves: the stuff ingredient first when there is one, then the costs. */
  function IngredientsFor(def: ThingDef, adjustedCount: int): (r: seq<IngredientCount>)
    ensures |r| == (if def.madeFromStuff then 1 else 0) + (if def.costList.Some? then |def.costList.value| else 0)
  {
    StuffIngredients(def, adjustedCount) + if def.costList.Some? then CostIngredients(def.costList.value, adjustedCount) else []
  }

  /** The filter rules SetIngredients adds to the fixed ingredient filter. */
  function FixedRulesFor(def: ThingDef): set<FilterRule>
  {
    if def.madeFromStuff then {AllowAllWhoCanMake(def.id)} else {}
  }

  /** Stuff comes first and takes everything the def can be made of; every cost allows exactly its def. */
  lemma IngredientsLayout(def: ThingDef, n: int)
    ensures def.madeFromStuff ==>
              IngredientsFor(def, n)[0] == IngredientCount((def.costStuffCount * n) as real, AllowAllWhoCanMake(def.id))
    ensures def.costList.Some? ==>
              var off := if def.madeFromStuff then 1 else 0;
              forall k :: 0 <= k < |def.costList.value| ==>
                IngredientsFor(def, n)[off + k].filter == Allow(def.costList.value[k].thingDef)
                && IngredientsFor(def, n)[off + k].baseCount == (def.costList.value[k].count * n) as real
  {
  }

  /** A bulk recipe needs exactly `n` times each ingredient of the single recipe, with the same filters. */
  lemma IngredientsScale(def: ThingDef, n: int)
    ensures |IngredientsFor(def, n)| == |IngredientsFor(def, 1)|
    ensures forall k :: 0 <= k < |IngredientsFor(def, n)| ==>
              IngredientsFor(def, n)[k].filter == IngredientsFor(def, 1)[k].filter
              && IngredientsFor(def, n)[k].baseCount == n as real * IngredientsFor(def, 1)[k].baseCount
  {
    var a, b := IngredientsFor(def, n), IngredientsFor(def, 1);
    var s := StuffIngredients(def, n);
    forall k | 0 <= k < |a|
      ensures a[k].filter == b[k].filter && a[k].baseCount == n as real * b[k].baseCount
    {
      if k >= |s| {
        var cs := def.costList.value;
        assert a[k] == CostIngredient(cs[k - |s|], n);
        assert b[k] == CostIngredient(cs[k - |s|], 1);
      }
    }
  }

  /** With a work amount set, a bulk recipe takes `n` times the work. */
  lemma WorkScales(def: ThingDef, m: RecipeMaker, n: int)
    requires m.workAmount >= 0 && n >= 1
    ensures MakeWorkAmount(def, m, n) == n as real * MakeWorkAmount(def, m, 1)
  {
  }

  /** Without one, a bulk recipe takes `n` times the WorkToMake stat, and a single recipe keeps the unset amount. */
  lemma UnsetWorkUsesStat(def: ThingDef, m: RecipeMaker, n: int)
    requires m.workAmount < 0 && n > 1
    ensures MakeWorkAmount(def, m, n) == n as real * def.workToMake
    ensures MakeWorkAmount(def, m, 1) == m.workAmount as real
  {
    assert m.workAmount * n < 0;
  }

  /** The plain and the bulk recipe of a def have different names, unless the bulk count is 1. */
  lemma BulkNameDiffers(def: ThingDef, n: int)
    ensures MakeDefName(def, n) == MakeDefName(def, 1) <==> n == 1
  {
    if n != 1 {
      assert |MakeDefName(def, n)| == |MakeDefName(def, 1)| + 4;
    }
  }

  /** Plain recipe names of different defs differ, and so do bulk ones. */
  lemma NamesDistinguishDefs(a: ThingDef, b: ThingDef, n: int)
    requires MakeDefName(a, n) == MakeDefName(b, n)
    ensures a.defName == b.defName
  {
    var p := "Make_";
    var sfx := if n != 1 then "Bulk" else "";
    assert |a.defName| == |b.defName|;
    assert forall k :: 0 <= k < |a.defName| ==> a.defName[k] == MakeDefName(a, n)[|p| + k];
    assert forall k :: 0 <= k < |b.defName| ==> b.defName[k] == MakeDefName(b, n)[|p| + k];
  }

  /** The bulk recipe of def "A" and the plain recipe of def "ABulk" carry the same name. */
  lemma BulkNameCanCollide(a: ThingDef, b: ThingDef)
    requires a.defName == "A" && b.defName == "ABulk"
    ensures MakeDefName(a, 2) == MakeDefName(b, 1)
  {
  }

  // ---------------------------------------------------------------------
  // The recipe object

  class RecipeDef {
    var defName: string
    var labelText: string
    var displayPriority: int
    var workAmount: real
    var ingredients: seq<IngredientCount>
    var products: seq<ThingDefCount>
    var adjustedCount: int
    var regenerateOnDifficultyChange: bool
    var targetCountAdjustment: int
    var productHasIngredientStuff: bool
    var fixedIngredientFilter: set<FilterRule>
    var administersIngestible: bool
    var targetsBodyPart: bool
    var anesthetize: bool
    var surgerySuccessChanceFactor: real
    var recipeUsers: seq<DefId>

    /** A new RecipeDef (field defaults of RecipeDef). */
    constructor ()
      ensures defName == "" && ingredients == [] && products == [] && adjustedCount == 1
      ensures !regenerateOnDifficultyChange && !productHasIngredientStuff && fixedIngredientFilter == {}
      ensures workAmount == -1.0 && targetCountAdjustment == 1 && !administersIngestible
      ensures targetsBodyPart && anesthetize && surgerySuccessChanceFactor == 1.0 && recipeUsers == []
    {
      defName := "";
      labelText := "";
      displayPriority := 99999;
      workAmount := -1.0;
      ingredients := [];
      products := [];
      adjustedCount := 1;
      regenerateOnDifficultyChange := false;
      targetCountAdjustment := 1;
      productHasIngredientStuff := false;
      fixedIngredientFilter := {};
      administersIngestible := false;
      targetsBodyPart := true;
      anesthetize := true;
      surgerySuccessChanceFactor := 1.0;
      recipeUsers := [];
    }
  }

  /** The fields CreateRecipeDefFromMaker sets itself on a recipe for `def` at count `n`. */
  ghost predicate MakerFields(r: RecipeDef, def: ThingDef, n: int)
    reads r
    requires def.recipeMaker.Some?
  {
    var m := def.recipeMaker.value;
    && r.defName == MakeDefName(def, n)
    && r.labelText == MakeLabelText(def, n)
    && r.displayPriority == m.displayPriority + n - 1
    && r.workAmount == MakeWorkAmount(def, m, n)
    && r.products == [ThingDefCount(def.id, m.productCount * n)]
    && r.regenerateOnDifficultyChange == def.hasCostListForDifficulty
    && r.targetCountAdjustment == m.targetCountAdjustment * n
    && !r.administersIngestible
  }

  /** What SetIngredients leaves on a new recipe for `def` at count `n`. */
  ghost predicate IngredientFields(r: RecipeDef, def: ThingDef, n: int)
    reads r
  {
    && r.ingredients == IngredientsFor(def, n)
    && r.adjustedCount == n
    && r.productHasIngredientStuff == def.madeFromStuff
    && r.fixedIngredientFilter == FixedRulesFor(def)
  }

  /** Everything CreateRecipeDefFromMaker sets on a recipe for `def` at count `n`. */
  ghost predicate MadeFrom(r: RecipeDef, def: ThingDef, n: int)
    reads r
  {
    def.recipeMaker.Some? && MakerFields(r, def, n) && IngredientFields(r, def, n)
  }

  /** SetIngredients: replace the ingredients and record the count; the fixed filter only gains rules. */
  method SetIngredients(r: RecipeDef, def: ThingDef, adjustedCount: int)
    modifies r`ingredients, r`adjustedCount, r`fixedIngredientFilter, r`productHasIngredientStuff
    ensures r.ingredients == IngredientsFor(def, adjustedCount) && r.adjustedCount == adjustedCount
    ensures r.fixedIngredientFilter == old(r.fixedIngredientFilter) + FixedRulesFor(def)
    ensures r.productHasIngredientStuff == (old(r.productHasIngredientStuff) || def.madeFromStuff)
  {
    r.ingredients := [];
    r.adjustedCount := adjustedCount;
    if def.madeFromStuff {
      r.ingredients := r.ingredients + [IngredientCount((def.costStuffCount * adjustedCount) as real, AllowAllWhoCanMake(def.id))];
      r.fixedIngredientFilter := r.fixedIngredientFilter + {AllowAllWhoCanMake(def.id)};
      r.productHasIngredientStuff := true;
    }
    if def.costList.None? {
      return;
    }
    var cs := def.costList.value;
    var k := 0;
    while k < |cs|
      invariant 0 <= k <= |cs|
      invariant r.ingredients == StuffIngredients(def, adjustedCount) + CostIngredients(cs[..k], adjustedCount)
      invariant r.adjustedCount == adjustedCount
      invariant r.fixedIngredientFilter == old(r.fixedIngredientFilter) + FixedRulesFor(def)
      invariant r.productHasIngredientStuff == (old(r.productHasIngredientStuff) || def.madeFromStuff)
    {
      assert cs[..k + 1][..k] == cs[..k];
      r.ingredients := r.ingredients + [CostIngredient(cs[k], adjustedCount)];
      k := k + 1;
    }
    assert cs[..k] == cs;
  }

  /** CreateRecipeDefFromMaker: a fresh recipe for `def` at count `n`. */
  method CreateRecipeDefFromMaker(def: ThingDef, n: int) returns (r: RecipeDef)
    requires def.recipeMaker.Some?
    ensures fresh(r) && MadeFrom(r, def, n)
  {
    r := new RecipeDef();
    AssignMakerFields(r, def, n);
    SetIngredients(r, def, n);
  }

  /** The field assignments of CreateRecipeDefFromMaker other than SetIngredients. */
  method AssignMakerFields(r: RecipeDef, def: ThingDef, n: int)
    requires def.recipeMaker.Some? && !r.administersIngestible && r.products == [] && !r.regenerateOnDifficultyChange
    modifies r`defName, r`labelText, r`displayPriority, r`workAmount, r`products, r`regenerateOnDifficultyChange,
             r`targetCountAdjustment
    ensures MakerFields(r, def, n)
  {
    var m := def.recipeMaker.value;
    var name := "Make_" + def.defName;
    if n != 1 {
      name := name + "Bulk";
    }
    r.defName := name;
    var text := def.thingLabel;
    if n != 1 {
      text := text + " x" + IntToString(n);
    }
    r.labelText := text;
    r.displayPriority := m.displayPriority + n - 1;
    r.workAmount := (m.workAmount * n) as real;
    if def.hasCostListForDifficulty {
      r.regenerateOnDifficultyChange := true;
    }
    r.products := r.products + [ThingDefCount(def.id, m.productCount * n)];
    r.targetCountAdjustment := m.targetCountAdjustment * n;
    if n != 1 && r.workAmount < 0.0 {
      // WorkAmountTotal with an unset work amount reads the product's WorkToMake stat.
      r.workAmount := def.workToMake * n as real;
    }
  }

  /** The (def, count) pairs DefsFromRecipeMakers creates recipes for, in order. */
  function MakerPlan(defs: seq<ThingDef>): (r: seq<(ThingDef, int)>)
    ensures forall k :: 0 <= k < |r| ==> r[k].0.recipeMaker.Some?
  {
    if |defs| == 0 then []
    else
      var d := defs[|defs| - 1];
      MakerPlan(defs[..|defs| - 1])
      + (if d.recipeMaker.None? then []
         else [(d, 1)] + (if d.recipeMaker.value.bulkRecipeCount > 0 then [(d, d.recipeMaker.value.bulkRecipeCount)] else []))
  }

  /** Recipes per def: one for every def with a maker, and a bulk one exactly when its bulk count is positive. */
  lemma {:induction false} MakerPlanContents(defs: seq<ThingDef>, d: ThingDef)
    ensures (d, 1) in MakerPlan(defs) <==> d in defs && d.recipeMaker.Some?
    ensures forall n :: n != 1 ==>
              ((d, n) in MakerPlan(defs) <==>
                 d in defs && d.recipeMaker.Some? && d.recipeMaker.value.bulkRecipeCount > 0
                 && n == d.recipeMaker.value.bulkRecipeCount)
    decreases |defs|
  {
    if |defs| > 0 {
      var init := defs[..|defs| - 1];
      MakerPlanContents(init, d);
      assert defs == init + [defs[|defs| - 1]];
    }
  }

  /** DefsFromRecipeMakers: the plain recipe of every def with a maker, each followed by its bulk recipe if any. */
  method DefsFromRecipeMakers(defs: seq<ThingDef>) returns (rs: seq<RecipeDef>)
    ensures |rs| == |MakerPlan(defs)|
    ensures forall k :: 0 <= k < |rs| ==> fresh(rs[k]) && MadeFrom(rs[k], MakerPlan(defs)[k].0, MakerPlan(defs)[k].1)
  {
    rs := [];
    var i := 0;
    while i < |defs|
      invariant 0 <= i <= |defs|
      invariant |rs| == |MakerPlan(defs[..i])|
      invariant forall k :: 0 <= k < |rs| ==>
                  fresh(rs[k]) && MadeFrom(rs[k], MakerPlan(defs[..i])[k].0, MakerPlan(defs[..i])[k].1)
    {
      var d := defs[i];
      ghost var before := MakerPlan(defs[..i]);
      assert defs[..i + 1][..i] == defs[..i];
      if d.recipeMaker.Some? {
        var r := CreateRecipeDefFromMaker(d, 1);
        rs := rs + [r];
        if d.recipeMaker.value.bulkRecipeCount > 0 {
          var b := CreateRecipeDefFromMaker(d, d.recipeMaker.value.bulkRecipeCount);
          rs := rs + [b];
        }
      }
      i := i + 1;
    }
    assert defs[..i] == defs;
  }

  /** ResetRecipeIngredientsForDifficulty: the recipes marked for it get their ingredients anew from their product def. */
  method ResetRecipeIngredientsForDifficulty(recipes: seq<RecipeDef>, current: DefId -> ThingDef)
    requires forall k :: 0 <= k < |recipes| && recipes[k].regenerateOnDifficultyChange ==> |recipes[k].products| > 0
    modifies set k | 0 <= k < |recipes| :: recipes[k]
    ensures forall k :: 0 <= k < |recipes| ==>
              recipes[k].products == old(recipes[k].products) && recipes[k].adjustedCount == old(recipes[k].adjustedCount)
              && recipes[k].regenerateOnDifficultyChange == old(recipes[k].regenerateOnDifficultyChange)
    ensures forall k :: 0 <= k < |recipes| && recipes[k].regenerateOnDifficultyChange ==>
              recipes[k].ingredients == IngredientsFor(current(recipes[k].products[0].thingDef), recipes[k].adjustedCount)
    ensures forall k :: 0 <= k < |recipes| && !recipes[k].regenerateOnDifficultyChange ==>
              recipes[k].ingredients == old(recipes[k].ingredients)
              && recipes[k].fixedIngredientFilter == old(recipes[k].fixedIngredientFilter)
  {
    var i := 0;
    while i < |recipes|
      invariant 0 <= i <= |recipes|
      invariant forall k :: 0 <= k < |recipes| ==>
                  recipes[k].products == old(recipes[k].products) && recipes[k].adjustedCount == old(recipes[k].adjustedCount)
                  && recipes[k].regenerateOnDifficultyChange == old(recipes[k].regenerateOnDifficultyChange)
      invariant forall k :: 0 <= k < i && recipes[k].regenerateOnDifficultyChange ==>
                  recipes[k].ingredients == IngredientsFor(current(recipes[k].products[0].thingDef), recipes[k].adjustedCount)
      invariant forall k :: 0 <= k < |recipes| && !recipes[k].regenerateOnDifficultyChange ==>
                  recipes[k].ingredients == old(recipes[k].ingredients)
                  && recipes[k].fixedIngredientFilter == old(recipes[k].fixedIngredientFilter)
    {
      var r := recipes[i];
      if r.regenerateOnDifficultyChange {
        SetIngredients(r, current(r.products[0].thingDef), r.adjustedCount);
      }
      i := i + 1;
    }
  }

  // ---------------------------------------------------------------------
  // Drug recipes

  function Drugs(defs: seq<ThingDef>): (r: seq<ThingDef>)
    ensures forall k :: 0 <= k < |r| ==> r[k].isDrug && r[k] in defs
    ensures forall d :: d in defs && d.isDrug ==> d in r
  {
    if |defs| == 0 then []
    else Drugs(defs[..|defs| - 1]) + (if defs[|defs| - 1].isDrug then [defs[|defs| - 1]] else [])
  }

  /** The ids of the flesh pawn defs, in database order. */
  function FleshPawns(defs: seq<ThingDef>): (r: seq<DefId>)
    ensures forall k :: 0 <= k < |r| ==> exists d :: d in defs && d.isFleshPawn && d.id == r[k]
    ensures forall d :: d in defs && d.isFleshPawn ==> d.id in r
  {
    if |defs| == 0 then []
    else FleshPawns(defs[..|defs| - 1]) + (if defs[|defs| - 1].isFleshPawn then [defs[|defs| - 1].id] else [])
  }

  /** Everything DrugAdministerDefs sets on the recipe for a drug. */
  ghost predicate AdministersDrug(r: RecipeDef, drug: ThingDef, defs: seq<ThingDef>)
    reads r
  {
    r.defName == "Administer_" + drug.defName
    && r.labelText == drug.thingLabel
    && r.administersIngestible && !r.targetsBodyPart && !r.anesthetize
    && r.surgerySuccessChanceFactor == 99999.0
    && r.workAmount == drug.baseIngestTicks as real
    && r.ingredients == [IngredientCount(1.0, Allow(drug.id))]
    && r.fixedIngredientFilter == {Allow(drug.id)}
    && r.recipeUsers == FleshPawns(defs)
    && !r.regenerateOnDifficultyChange && r.products == []
  }

  method CollectFleshPawns(defs: seq<ThingDef>) returns (users: seq<DefId>)
    ensures users == FleshPawns(defs)
  {
    users := [];
    var j := 0;
    while j < |defs|
      invariant 0 <= j <= |defs|
      invariant users == FleshPawns(defs[..j])
    {
      assert defs[..j + 1][..j] == defs[..j];
      if defs[j].isFleshPawn {
        users := users + [defs[j].id];
      }
      j := j + 1;
    }
    assert defs[..j] == defs;
  }

  method AdministerRecipe(drug: ThingDef, defs: seq<ThingDef>) returns (r: RecipeDef)
    ensures fresh(r) && AdministersDrug(r, drug, defs)
  {
    r := new RecipeDef();
    r.defName := "Administer_" + drug.defName;
    r.labelText := drug.thingLabel;
    r.administersIngestible := true;
    r.targetsBodyPart := false;
    r.anesthetize := false;
    r.surgerySuccessChanceFactor := 99999.0;
    r.workAmount := drug.baseIngestTicks as real;
    r.ingredients := r.ingredients + [IngredientCount(1.0, Allow(drug.id))];
    r.fixedIngredientFilter := r.fixedIngredientFilter + {Allow(drug.id)};
    r.recipeUsers := CollectFleshPawns(defs);
  }

  /** DrugAdministerDefs: one "Administer_" recipe per drug, in database order. */
  method DrugAdministerDefs(defs: seq<ThingDef>) returns (rs: seq<RecipeDef>)
    ensures |rs| == |Drugs(defs)|
    ensures forall k :: 0 <= k < |rs| ==> fresh(rs[k]) && AdministersDrug(rs[k], Drugs(defs)[k], defs)
  {
    rs := [];
    var i := 0;
    while i < |defs|
      invariant 0 <= i <= |defs|
      invariant |rs| == |Drugs(defs[..i])|
      invariant forall k :: 0 <= k < |rs| ==> fresh(rs[k]) && AdministersDrug(rs[k], Drugs(defs[..i])[k], defs)
    {
      assert defs[..i + 1][..i] == defs[..i];
      if defs[i].isDrug {
        var r := AdministerRecipe(defs[i], defs);
        rs := rs + [r];
      }
      i := i + 1;
    }
    assert defs[..i] == defs;
  }

  /** ImpliedRecipeDefs: the maker recipes followed by the drug recipes. */
  method ImpliedRecipeDefs(defs: seq<ThingDef>) returns (rs: seq<RecipeDef>)
    ensures |rs| == |MakerPlan(defs)| + |Drugs(defs)|
    ensures forall k :: 0 <= k < |MakerPlan(defs)| ==>
              fresh(rs[k]) && MadeFrom(rs[k], MakerPlan(defs)[k].0, MakerPlan(defs)[k].1)
    ensures forall k :: 0 <= k < |Drugs(defs)| ==>
              fresh(rs[|MakerPlan(defs)| + k]) && AdministersDrug(rs[|MakerPlan(defs)| + k], Drugs(defs)[k], defs)
  {
    var makers := DefsFromRecipeMakers(defs);
    var drugs := DrugAdministerDefs(defs);
    rs := makers + drugs;
  }
}
