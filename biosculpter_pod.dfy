/**
 * The biosculpter pod: a building that is loaded with nutrition, accepts one
 * pawn for a chosen cycle, runs the cycle down while powered and ejects the
 * pawn at the end or after a long power cut. A pod that completes a cycle is
 * biotuned to its occupant for a while; a static registry lists, per pawn, the
 * pods biotuned to it.
 *
 * The pod's state is a `Pod` value with the derived getters of the source and
 * the transition functions that specify each operation; the class
 * `CompBiosculpterPod` holds the same fields and its methods are proved to
 * perform those transitions.
 */
module BiosculpterPod {
  import opened Wrappers
  import opened Seqs
  import Mathf

  type PawnId = nat
  type PodId = nat
  type DefId = nat
  type JobId = nat

  /** The static dictionary from a pawn to the list of pods biotuned to it. */
  type Registry = map<PawnId, seq<PodId>>

  const NoPowerEjectCumulativeTicks: int := 60000
  const BiotunedDuration: int := 4800000
  const NutritionRequired: real := 5.0
  const TicksPerDay: real := 60000.0
  /** The least cycle speed factor. */
  const MinSpeedFactor: real := 0.1

  datatype PodState = LoadingNutrition | SelectingCycle | Occupied

  /**
   * A thing in the pod's container: a pawn, or an item with its stack count
   * and its whole nutrition (the engine's nutrition stat times the stack count).
   */
  datatype ContainedThing = PawnThing(pawn: PawnId) | Item(def: DefId, stackCount: nat, nutrition: real)

  datatype IngredientCount = IngredientCount(thingDef: DefId, count: nat)

  /** The properties of a cycle the pod itself reads; a null ingredient list is None. */
  datatype Cycle = Cycle(key: string, durationDays: real, extraRequiredIngredients: Option<seq<IngredientCount>>)

  /** A pawn's inventory, as the count of things of each def it carries. */
  type Inventory = map<DefId, nat>

  function Count(inv: Inventory, d: DefId): nat
  {
    if d in inv then inv[d] else 0
  }

  /**
   * Pawn_InventoryTracker.RemoveCount: takes up to `n` things of def `d`.
   * The tracker is not part of this model; taking what there is when fewer
   * are carried is the behaviour assumed here.
   */
  function RemoveCount(inv: Inventory, d: DefId, n: nat): (r: Inventory)
    ensures Count(r, d) == if Count(inv, d) >= n then Count(inv, d) - n else 0
    ensures forall e :: e != d ==> Count(r, e) == Count(inv, e)
  {
    inv[d := if Count(inv, d) >= n then Count(inv, d) - n else 0]
  }

  /** The removal loop of PawnCarryingExtraCycleIngredients, one entry after the other. */
  function RemoveIngredients(inv: Inventory, ings: seq<IngredientCount>): Inventory
  {
    if |ings| == 0 then inv
    else
      var last := ings[|ings| - 1];
      RemoveCount(RemoveIngredients(inv, ings[..|ings| - 1]), last.thingDef, last.count)
  }

  /** The cycle has no extra ingredients (NullOrEmpty). */
  predicate NoExtraIngredients(c: Cycle)
  {
    c.extraRequiredIngredients.None? || |c.extraRequiredIngredients.value| == 0
  }

  /** What PawnCarryingExtraCycleIngredients answers. */
  predicate CarriesExtraIngredients(devFillPodLatch: bool, inv: Inventory, c: Cycle)
  {
    NoExtraIngredients(c) || devFillPodLatch
    || forall i :: 0 <= i < |c.extraRequiredIngredients.value| ==>
         Count(inv, c.extraRequiredIngredients.value[i].thingDef) >= c.extraRequiredIngredients.value[i].count
  }

  /** The inventory after PawnCarryingExtraCycleIngredients with `remove`. */
  function InventoryAfterCheck(devFillPodLatch: bool, inv: Inventory, c: Cycle, remove: bool): Inventory
  {
    if remove && !NoExtraIngredients(c) && !devFillPodLatch && CarriesExtraIngredients(devFillPodLatch, inv, c)
    then RemoveIngredients(inv, c.extraRequiredIngredients.value)
    else inv
  }

  /** Things of a def no ingredient names are never removed. */
  lemma {:induction false} RemoveIngredientsKeepsOtherDefs(inv: Inventory, ings: seq<IngredientCount>, d: DefId)
    requires forall i :: 0 <= i < |ings| ==> ings[i].thingDef != d
    ensures Count(RemoveIngredients(inv, ings), d) == Count(inv, d)
    decreases |ings|
  {
    if |ings| > 0 {
      RemoveIngredientsKeepsOtherDefs(inv, ings[..|ings| - 1], d);
    }
  }

  /**
   * With every def listed once and enough of each carried, exactly the listed
   * count of every listed def is taken.
   */
  lemma {:induction false} RemoveIngredientsTakesCounts(inv: Inventory, ings: seq<IngredientCount>, j: nat)
    requires forall a, b :: 0 <= a < b < |ings| ==> ings[a].thingDef != ings[b].thingDef
    requires forall i :: 0 <= i < |ings| ==> Count(inv, ings[i].thingDef) >= ings[i].count
    requires j < |ings|
    ensures Count(RemoveIngredients(inv, ings), ings[j].thingDef) == Count(inv, ings[j].thingDef) - ings[j].count
    decreases |ings|
  {
    var n := |ings| - 1;
    var init := ings[..n];
    if j == n {
      RemoveIngredientsKeepsOtherDefs(inv, init, ings[j].thingDef);
    } else {
      RemoveIngredientsTakesCounts(inv, init, j);
    }
  }

  /** The fields of a pod, and the getters derived from them. */
  datatype Pod = Pod(
    currentCycleKey: Option<string>,
    currentCycleTicksRemaining: real,
    currentCyclePowerCutTicks: int,
    innerContainer: seq<ContainedThing>,
    biotunedTo: Option<PawnId>,
    biotunedCountdownTicks: int,
    liquifiedNutrition: real,
    devFillPodLatch: bool,
    autoAgeReversal: bool,
    queuedEnterJob: Option<JobId>,
    queuedPawn: Option<PawnId>,
    pawnEnteringBiosculpter: Option<PawnId>)
  {
    function RequiredNutritionRemaining(): (r: real)
      ensures r >= 0.0
      ensures r == 0.0 <==> liquifiedNutrition >= NutritionRequired
      ensures liquifiedNutrition <= NutritionRequired ==> r + liquifiedNutrition == NutritionRequired
    {
      Mathf.MaxReal(NutritionRequired - liquifiedNutrition, 0.0)
    }

    predicate NutritionLoaded()
    {
      RequiredNutritionRemaining() <= 0.0
    }

    /** The entering pawn, else the single pawn held while a cycle is set. */
    function Occupant(): (r: Option<PawnId>)
      ensures pawnEnteringBiosculpter.Some? ==> r == pawnEnteringBiosculpter
      ensures pawnEnteringBiosculpter.None? ==>
                (r.Some? <==> currentCycleKey.Some? && |innerContainer| == 1 && innerContainer[0].PawnThing?)
      ensures pawnEnteringBiosculpter.None? && r.Some? ==> innerContainer == [PawnThing(r.value)]
    {
      if pawnEnteringBiosculpter.Some? then pawnEnteringBiosculpter
      else if currentCycleKey.None? then None
      else if |innerContainer| != 1 then None
      else match innerContainer[0]
        case PawnThing(p) => Some(p)
        case Item(_, _, _) => None
    }

    function State(): PodState
    {
      if Occupant().Some? then Occupied
      else if NutritionLoaded() then SelectingCycle
      else LoadingNutrition
    }

    predicate CanAcceptOnceCycleChosen(pawn: PawnId, powerOn: bool)
    {
      if State() != SelectingCycle || !powerOn then false
      else if biotunedTo.Some? && biotunedTo != Some(pawn) then false
      else true
    }

    /** The speed factor of the cycle: cleanliness times the biotune bonus, and for an occupant its own stat. */
    function CycleSpeedFactor(cleanliness: real, biotunedCycleSpeedFactor: real, occupantSpeed: real): (r: real)
      ensures r >= MinSpeedFactor
    {
      var noPawn := cleanliness * (if biotunedTo.None? then 1.0 else biotunedCycleSpeedFactor);
      if Occupant().None? then Mathf.MaxReal(MinSpeedFactor, noPawn)
      else Mathf.MaxReal(MinSpeedFactor, noPawn * occupantSpeed)
    }

    /** The fields EjectContents resets; the container is emptied onto the map. */
    function Ejected(): Pod
    {
      this.(currentCycleKey := None, currentCycleTicksRemaining := 0.0, currentCyclePowerCutTicks := 0,
            liquifiedNutrition := 0.0, devFillPodLatch := false, innerContainer := [])
    }

    /** The pod once `pawn` has entered for cycle `c`: the queue is cleared and the nutrition spent. */
    function Accepted(pawn: PawnId, c: Cycle): Pod
    {
      this.(currentCycleKey := Some(c.key), innerContainer := [PawnThing(pawn)], pawnEnteringBiosculpter := None,
            currentCycleTicksRemaining := c.durationDays * TicksPerDay, liquifiedNutrition := 0.0,
            devFillPodLatch := false, queuedEnterJob := None, queuedPawn := None)
    }

    /** The pod after LiquifyNutrition. */
    function Liquified(): Pod
    {
      this.(liquifiedNutrition := Absorb(liquifiedNutrition, innerContainer), innerContainer := Kept(innerContainer))
    }
  }

  /** The state follows from Occupant and the nutrition alone. */
  lemma StateIsDerived(p: Pod)
    ensures p.State() == Occupied <==> p.Occupant().Some?
    ensures p.State() == SelectingCycle <==> p.Occupant().None? && p.liquifiedNutrition >= NutritionRequired
    ensures p.State() == LoadingNutrition <==> p.Occupant().None? && p.liquifiedNutrition < NutritionRequired
  {
  }

  // ---------------------------------------------------------------------
  // Nutrition

  /** A thing LiquifyNutrition turns into nutrition: not a pawn, with positive nutrition. */
  predicate Absorbable(t: ContainedThing)
  {
    t.Item? && t.nutrition > 0.0
  }

  /** The nutrition total of the absorbable things. */
  function TotalNutrition(s: seq<ContainedThing>): (r: real)
    ensures r >= 0.0
    ensures r == 0.0 <==> forall i :: 0 <= i < |s| ==> !Absorbable(s[i])
  {
    if |s| == 0 then 0.0
    else (if Absorbable(s[0]) then s[0].nutrition else 0.0) + TotalNutrition(s[1..])
  }

  /** The liquified nutrition after visiting the things in order, each capped at 5. */
  function Absorb(acc: real, s: seq<ContainedThing>): real
    decreases |s|
  {
    if |s| == 0 then acc
    else Absorb(if Absorbable(s[0]) then Mathf.MinReal(NutritionRequired, acc + s[0].nutrition) else acc, s[1..])
  }

  /** The things that stay in the container. */
  function Kept(s: seq<ContainedThing>): seq<ContainedThing>
  {
    if |s| == 0 then []
    else Kept(s[..|s| - 1]) + (if Absorbable(s[|s| - 1]) then [] else [s[|s| - 1]])
  }

  /**
   * Capping after every item is the same as capping the total once: from at
   * most 5, the nutrition becomes min(5, old + total).
   */
  lemma {:induction false} AbsorbIsCappedSum(acc: real, s: seq<ContainedThing>)
    requires acc <= NutritionRequired
    ensures Absorb(acc, s) == Mathf.MinReal(NutritionRequired, acc + TotalNutrition(s))
    decreases |s|
  {
    if |s| > 0 {
      var next := if Absorbable(s[0]) then Mathf.MinReal(NutritionRequired, acc + s[0].nutrition) else acc;
      AbsorbIsCappedSum(next, s[1..]);
    }
  }

  /** Liquifying never raises the nutrition above 5 and never lowers it. */
  lemma LiquifyStaysWithinCap(p: Pod)
    requires p.liquifiedNutrition <= NutritionRequired
    ensures p.liquifiedNutrition <= p.Liquified().liquifiedNutrition <= NutritionRequired
  {
    AbsorbIsCappedSum(p.liquifiedNutrition, p.innerContainer);
  }

  /** Only absorbable things leave the container, and pawns always stay. */
  lemma {:induction false} KeptKeepsPawns(s: seq<ContainedThing>)
    ensures forall i :: 0 <= i < |Kept(s)| ==> !Absorbable(Kept(s)[i])
    ensures forall i :: 0 <= i < |s| && !Absorbable(s[i]) ==> s[i] in Kept(s)
    decreases |s|
  {
    if |s| > 0 {
      KeptKeepsPawns(s[..|s| - 1]);
      assert forall i :: 0 <= i < |s| - 1 ==> s[i] == s[..|s| - 1][i];
    }
  }

  /** One more visited thing: it joins the kept things unless it is absorbed. */
  lemma KeptStep(items: seq<ContainedThing>, i: nat)
    requires i < |items|
    ensures Kept(items[..i + 1]) == Kept(items[..i]) + (if Absorbable(items[i]) then [] else [items[i]])
  {
    assert items[..i + 1][..i] == items[..i];
  }

  lemma AbsorbStep(acc: real, items: seq<ContainedThing>, i: nat)
    requires i < |items|
    ensures Absorb(acc, items[i..]) ==
              Absorb(if Absorbable(items[i]) then Mathf.MinReal(NutritionRequired, acc + items[i].nutrition) else acc,
                     items[i + 1..])
  {
    assert items[i..][1..] == items[i + 1..];
  }

  /** Keeping the visited thing leaves the container as it is. */
  lemma KeepVisited(kept: seq<ContainedThing>, items: seq<ContainedThing>, i: nat)
    requires i < |items|
    ensures kept + items[i..] == (kept + [items[i]]) + items[i + 1..]
  {
    assert items[i..] == [items[i]] + items[i + 1..];
  }

  /** Destroying the visited thing removes it where it sits: after the kept things. */
  lemma DestroyVisited(c: seq<ContainedThing>, kept: seq<ContainedThing>, rest: seq<ContainedThing>)
    requires |rest| > 0 && c == kept + rest
    ensures c[..|kept|] + c[|kept| + 1..] == kept + rest[1..]
  {
    assert c[..|kept|] == kept;
    assert c[|kept| + 1..] == rest[1..];
  }

  /** One visit of LiquifyNutrition keeps both of its loop invariants. */
  lemma LiquifyStep(items: seq<ContainedThing>, i: nat, c: seq<ContainedThing>, acc: real, acc0: real)
    requires i < |items|
    requires c == Kept(items[..i]) + items[i..]
    requires Absorb(acc, items[i..]) == Absorb(acc0, items)
    ensures var k := |Kept(items[..i])|;
            if Absorbable(items[i]) then
              c[..k] + c[k + 1..] == Kept(items[..i + 1]) + items[i + 1..]
              && Absorb(Mathf.MinReal(NutritionRequired, acc + items[i].nutrition), items[i + 1..]) == Absorb(acc0, items)
            else
              c == Kept(items[..i + 1]) + items[i + 1..] && Absorb(acc, items[i + 1..]) == Absorb(acc0, items)
  {
    var kept := Kept(items[..i]);
    KeptStep(items, i);
    AbsorbStep(acc, items, i);
    if Absorbable(items[i]) {
      DestroyVisited(c, kept, items[i..]);
    } else {
      KeepVisited(kept, items, i);
    }
  }

  // ---------------------------------------------------------------------
  // Biotuning

  /** No pod is listed twice for the same pawn. */
  ghost predicate NoDuplicates(reg: Registry)
  {
    forall k, x :: k in reg ==> Occurrences(reg[k], x) <= 1
  }

  datatype PodAndRegistry = PodAndRegistry(pod: Pod, registry: Registry)

  /** The first registry step of SetBiotuned: the pod leaves the list of the pawn it was biotuned to. */
  function Unlisted(reg: Registry, from: Option<PawnId>, me: PodId): Registry
  {
    if from.Some? && from.value in reg then reg[from.value := RemoveFirst(reg[from.value], me)] else reg
  }

  /** The second step: the new pawn gets an empty list if it has none. */
  function WithKey(reg: Registry, to: Option<PawnId>): Registry
  {
    if to.Some? && to.value !in reg then reg[to.value := []] else reg
  }

  /** The third step: the pod joins the new pawn's list unless it is already there. */
  function Listed(reg: Registry, to: Option<PawnId>, me: PodId): Registry
  {
    if to.Some? && to.value in reg && me !in reg[to.value] then reg[to.value := reg[to.value] + [me]] else reg
  }

  /** SetBiotuned on pod `me`, step by step as the source does it. */
  function SetBiotunedSpec(p: Pod, reg: Registry, me: PodId, newTo: Option<PawnId>): PodAndRegistry
  {
    var p1 := if newTo != p.biotunedTo then p.(autoAgeReversal := false) else p;
    var p2 := if newTo.Some? && newTo != p.biotunedTo then p1.(biotunedCountdownTicks := BiotunedDuration) else p1;
    PodAndRegistry(p2.(biotunedTo := newTo), Listed(WithKey(Unlisted(reg, p.biotunedTo, me), newTo), newTo, me))
  }

  /** What SetBiotuned does to the pod's own fields. */
  lemma SetBiotunedFields(p: Pod, reg: Registry, me: PodId, newTo: Option<PawnId>)
    ensures var r := SetBiotunedSpec(p, reg, me, newTo).pod;
      && r.biotunedTo == newTo
      && r.biotunedCountdownTicks == (if newTo.Some? && newTo != p.biotunedTo then BiotunedDuration else p.biotunedCountdownTicks)
      && r.autoAgeReversal == (p.autoAgeReversal && newTo == p.biotunedTo)
      && r == p.(biotunedTo := r.biotunedTo, biotunedCountdownTicks := r.biotunedCountdownTicks,
                 autoAgeReversal := r.autoAgeReversal)
  {
  }

  /**
   * The registry after SetBiotuned: the pod is listed exactly once for its
   * new pawn, no longer for its old one, and no other pawn's list changes.
   */
  lemma SetBiotunedRegistry(p: Pod, reg: Registry, me: PodId, newTo: Option<PawnId>)
    requires NoDuplicates(reg)
    ensures var r := SetBiotunedSpec(p, reg, me, newTo).registry;
      && NoDuplicates(r)
      && r.Keys == reg.Keys + (if newTo.Some? then {newTo.value} else {})
      && (newTo.Some? ==> Occurrences(r[newTo.value], me) == 1)
      && (p.biotunedTo.Some? && p.biotunedTo != newTo && p.biotunedTo.value in reg ==> me !in r[p.biotunedTo.value])
      && (forall k :: k in reg && Some(k) != p.biotunedTo && Some(k) != newTo ==> r[k] == reg[k])
  {
    var reg1 := Unlisted(reg, p.biotunedTo, me);
    UnlistedMeaning(reg, p.biotunedTo, me);
    var reg2 := WithKey(reg1, newTo);
    WithKeyMeaning(reg1, newTo);
    ListedMeaning(reg2, newTo, me);
  }

  /** Unlisting keeps the registry free of duplicates, drops the pod from the old list and changes no other list. */
  lemma UnlistedMeaning(reg: Registry, from: Option<PawnId>, me: PodId)
    requires NoDuplicates(reg)
    ensures var r := Unlisted(reg, from, me);
      && NoDuplicates(r) && r.Keys == reg.Keys
      && (from.Some? && from.value in reg ==> me !in r[from.value])
      && (forall k :: k in reg && Some(k) != from ==> r[k] == reg[k])
  {
    if from.Some? && from.value in reg {
      var o := from.value;
      var r := reg[o := RemoveFirst(reg[o], me)];
      forall x
        ensures Occurrences(r[o], x) <= 1
      {
        OccurrencesRemoveFirst(reg[o], me, x);
      }
      OccurrencesRemoveFirst(reg[o], me, me);
      OccurrencesIn(r[o], me);
    }
  }

  /** Adding the new pawn's key keeps the registry free of duplicates and changes no existing list. */
  lemma WithKeyMeaning(reg: Registry, to: Option<PawnId>)
    requires NoDuplicates(reg)
    ensures var r := WithKey(reg, to);
      && NoDuplicates(r) && r.Keys == reg.Keys + (if to.Some? then {to.value} else {})
      && (forall k :: k in reg ==> r[k] == reg[k])
  {
  }

  /** Listing keeps the registry free of duplicates, lists the pod exactly once and changes no other list. */
  lemma ListedMeaning(reg: Registry, to: Option<PawnId>, me: PodId)
    requires NoDuplicates(reg) && (to.Some? ==> to.value in reg)
    ensures var r := Listed(reg, to, me);
      && NoDuplicates(r) && r.Keys == reg.Keys
      && (to.Some? ==> Occurrences(r[to.value], me) == 1)
      && (forall k :: k in reg && Some(k) != to ==> r[k] == reg[k])
  {
    if to.Some? {
      var n := to.value;
      var l := reg[n];
      OccurrencesIn(l, me);
      if me !in l {
        var r := reg[n := l + [me]];
        forall x
          ensures Occurrences(r[n], x) <= 1
        {
          OccurrencesAppend(l, me, x);
        }
        OccurrencesAppend(l, me, me);
      }
    }
  }

  /** The pod completes its cycle: biotune to the occupant, then eject without interruption. */
  function CycleCompletedSpec(p: Pod, reg: Registry, me: PodId): PodAndRegistry
  {
    var b := SetBiotunedSpec(p, reg, me, p.Occupant());
    PodAndRegistry(b.pod.Ejected(), b.registry)
  }

  /** The part of CompTick that runs while the pod is occupied: the cycle and power-cut counters. */
  function CycleTickSpec(p: Pod, reg: Registry, me: PodId, powerOn: bool,
                         cleanliness: real, biotunedCycleSpeedFactor: real, occupantSpeed: real): PodAndRegistry
  {
    if p.State() != Occupied then PodAndRegistry(p, reg)
    else
      var q := p.(biotunedCountdownTicks := BiotunedDuration);
      if powerOn then
        var q2 := q.(currentCycleTicksRemaining := q.currentCycleTicksRemaining
                       - q.CycleSpeedFactor(cleanliness, biotunedCycleSpeedFactor, occupantSpeed));
        if q2.currentCycleTicksRemaining <= 0.0 then CycleCompletedSpec(q2, reg, me) else PodAndRegistry(q2, reg)
      else
        var q2 := q.(currentCyclePowerCutTicks := q.currentCyclePowerCutTicks + 1);
        if q2.currentCyclePowerCutTicks >= NoPowerEjectCumulativeTicks then PodAndRegistry(q2.Ejected(), reg)
        else PodAndRegistry(q2, reg)
  }

  /** The end of CompTick: the biotune countdown, and dropping the biotuning once it has run out. */
  function CountdownTickSpec(s: PodAndRegistry, me: PodId, powerOn: bool): PodAndRegistry
  {
    var p2 := if powerOn && s.pod.biotunedCountdownTicks > 0
              then s.pod.(biotunedCountdownTicks := s.pod.biotunedCountdownTicks - 1) else s.pod;
    if p2.biotunedCountdownTicks <= 0 then SetBiotunedSpec(p2, s.registry, me, None)
    else PodAndRegistry(p2, s.registry)
  }

  /** One CompTick, with the power state, the cleanliness stat, the biotune bonus and the occupant's speed stat. */
  function TickSpec(p: Pod, reg: Registry, me: PodId, powerOn: bool,
                    cleanliness: real, biotunedCycleSpeedFactor: real, occupantSpeed: real): PodAndRegistry
  {
    CountdownTickSpec(CycleTickSpec(p, reg, me, powerOn, cleanliness, biotunedCycleSpeedFactor, occupantSpeed), me, powerOn)
  }

  /** An ejected pod is empty and waits for nutrition. */
  lemma EjectedPodIsEmpty(p: Pod)
    requires p.pawnEnteringBiosculpter.None?
    ensures p.Ejected().Occupant().None? && p.Ejected().State() == LoadingNutrition
    ensures p.Ejected().innerContainer == [] && p.Ejected().liquifiedNutrition == 0.0
  {
  }

  /**
   * A powered tick with an occupant runs the cycle down by at least 0.1, or
   * completes it: the pod is then biotuned to the occupant, its countdown
   * one tick below the full duration, and empty.
   */
  lemma PoweredOccupiedTick(p: Pod, reg: Registry, me: PodId, cleanliness: real, bonus: real, occupantSpeed: real)
    requires p.State() == Occupied && p.pawnEnteringBiosculpter.None?
    ensures var r := TickSpec(p, reg, me, true, cleanliness, bonus, occupantSpeed).pod;
      || (r.currentCycleTicksRemaining <= p.currentCycleTicksRemaining - MinSpeedFactor
          && r.currentCycleTicksRemaining > 0.0
          && r.innerContainer == p.innerContainer && r.biotunedTo == p.biotunedTo
          && r.biotunedCountdownTicks == BiotunedDuration - 1)
      || (r.biotunedTo == p.Occupant() && r.biotunedCountdownTicks == BiotunedDuration - 1
          && r.innerContainer == [] && r.State() == LoadingNutrition)
  {
    var q := p.(biotunedCountdownTicks := BiotunedDuration);
    var speed := q.CycleSpeedFactor(cleanliness, bonus, occupantSpeed);
    var q2 := q.(currentCycleTicksRemaining := q.currentCycleTicksRemaining - speed);
    if q2.currentCycleTicksRemaining <= 0.0 {
      assert q2.Occupant() == p.Occupant();
      SetBiotunedFields(q2, reg, me, q2.Occupant());
    }
  }

  /**
   * An unpowered tick with an occupant counts a power-cut tick and holds the
   * countdown at the full duration; at 60000 power-cut ticks the pawn is ejected.
   */
  lemma UnpoweredOccupiedTick(p: Pod, reg: Registry, me: PodId, cleanliness: real, bonus: real, occupantSpeed: real)
    requires p.State() == Occupied && p.pawnEnteringBiosculpter.None?
    ensures var r := TickSpec(p, reg, me, false, cleanliness, bonus, occupantSpeed);
      && r.registry == reg
      && r.pod.biotunedCountdownTicks == BiotunedDuration && r.pod.biotunedTo == p.biotunedTo
      && (p.currentCyclePowerCutTicks + 1 >= NoPowerEjectCumulativeTicks ==>
            r.pod.innerContainer == [] && r.pod.State() == LoadingNutrition && r.pod.currentCyclePowerCutTicks == 0)
      && (p.currentCyclePowerCutTicks + 1 < NoPowerEjectCumulativeTicks ==>
            r.pod.currentCyclePowerCutTicks == p.currentCyclePowerCutTicks + 1
            && r.pod.currentCycleTicksRemaining == p.currentCycleTicksRemaining
            && r.pod.innerContainer == p.innerContainer)
  {
  }

  /**
   * Without an occupant the countdown only runs while powered and positive,
   * and the biotuning is dropped once it reaches 0.
   */
  lemma IdleTickCountsDown(p: Pod, reg: Registry, me: PodId, powerOn: bool, cleanliness: real, bonus: real, occupantSpeed: real)
    requires p.State() != Occupied
    ensures var r := TickSpec(p, reg, me, powerOn, cleanliness, bonus, occupantSpeed).pod;
      var c := if powerOn && p.biotunedCountdownTicks > 0 then p.biotunedCountdownTicks - 1 else p.biotunedCountdownTicks;
      && r.biotunedCountdownTicks == c
      && r.biotunedTo == (if c <= 0 then None else p.biotunedTo)
      && r.innerContainer == p.innerContainer && r.currentCycleKey == p.currentCycleKey
      && r.liquifiedNutrition == p.liquifiedNutrition
  {
  }

  // ---------------------------------------------------------------------
  // Accepting a pawn

  datatype AcceptResult = AcceptResult(accepted: bool, pod: Pod, inventory: Inventory)

  /** TryAcceptPawn with the given cycle. */
  function TryAcceptSpec(p: Pod, pawn: PawnId, powerOn: bool, inv: Inventory, c: Cycle): AcceptResult
  {
    if !p.CanAcceptOnceCycleChosen(pawn, powerOn) then AcceptResult(false, p, inv)
    else if !CarriesExtraIngredients(p.devFillPodLatch, inv, c) then AcceptResult(false, p, inv)
    else AcceptResult(true, p.Accepted(pawn, c), InventoryAfterCheck(p.devFillPodLatch, inv, c, true))
  }

  /**
   * A pawn is accepted exactly when the pod is selecting a cycle, powered, not
   * biotuned to someone else, and the pawn carries the extra ingredients; a
   * refusal changes neither the pod nor the inventory.
   */
  lemma AcceptedExactlyWhenReady(p: Pod, pawn: PawnId, powerOn: bool, inv: Inventory, c: Cycle)
    ensures var r := TryAcceptSpec(p, pawn, powerOn, inv, c);
      && (r.accepted <==>
            p.State() == SelectingCycle && powerOn && (p.biotunedTo.None? || p.biotunedTo == Some(pawn))
            && CarriesExtraIngredients(p.devFillPodLatch, inv, c))
      && (!r.accepted ==> r.pod == p && r.inventory == inv)
  {
  }

  /** An accepted pawn occupies the pod for the whole cycle duration, with nutrition spent. */
  lemma AcceptedPawnOccupies(p: Pod, pawn: PawnId, powerOn: bool, inv: Inventory, c: Cycle)
    requires TryAcceptSpec(p, pawn, powerOn, inv, c).accepted
    ensures var r := TryAcceptSpec(p, pawn, powerOn, inv, c).pod;
      && r.Occupant() == Some(pawn) && r.State() == Occupied
      && r.currentCycleKey == Some(c.key)
      && r.currentCycleTicksRemaining == c.durationDays * 60000.0
      && r.liquifiedNutrition == 0.0 && !r.devFillPodLatch
      && r.queuedEnterJob.None? && r.queuedPawn.None?
      && r.biotunedTo == p.biotunedTo && r.biotunedCountdownTicks == p.biotunedCountdownTicks
  {
  }

  /** Ejecting right after accepting drops exactly the accepted pawn and leaves the pod empty. */
  lemma EjectAfterAccept(p: Pod, pawn: PawnId, powerOn: bool, inv: Inventory, c: Cycle)
    requires TryAcceptSpec(p, pawn, powerOn, inv, c).accepted
    ensures var r := TryAcceptSpec(p, pawn, powerOn, inv, c).pod;
      && r.innerContainer == [PawnThing(pawn)]
      && r.Ejected().State() == LoadingNutrition && r.Ejected().currentCycleKey.None?
  {
  }

  // ---------------------------------------------------------------------
  // The pod object

  /** The static cachedBiotunedPods dictionary. */
  class BiotuneRegistry {
    var pods: Registry

    constructor ()
      ensures pods == map[]
    {
      pods := map[];
    }
  }

  class CompBiosculpterPod {
    const podId: PodId
    /** The biotunedCycleSpeedFactor of the pod's properties. */
    const biotunedCycleSpeedFactor: real
    const registry: BiotuneRegistry

    var currentCycleKey: Option<string>
    var currentCycleTicksRemaining: real
    var currentCyclePowerCutTicks: int
    var innerContainer: seq<ContainedThing>
    var biotunedTo: Option<PawnId>
    var biotunedCountdownTicks: int
    var liquifiedNutrition: real
    var devFillPodLatch: bool
    var autoAgeReversal: bool
    var queuedEnterJob: Option<JobId>
    var queuedPawn: Option<PawnId>
    var pawnEnteringBiosculpter: Option<PawnId>

    function Snapshot(): Pod
      reads this
    {
      Pod(currentCycleKey, currentCycleTicksRemaining, currentCyclePowerCutTicks, innerContainer,
          biotunedTo, biotunedCountdownTicks, liquifiedNutrition, devFillPodLatch, autoAgeReversal,
          queuedEnterJob, queuedPawn, pawnEnteringBiosculpter)
    }

    /** A new, empty pod. */
    constructor (id: PodId, bonus: real, reg: BiotuneRegistry)
      ensures podId == id && biotunedCycleSpeedFactor == bonus && registry == reg
      ensures Snapshot() == Pod(None, 0.0, 0, [], None, 0, 0.0, false, false, None, None, None)
    {
      podId := id;
      biotunedCycleSpeedFactor := bonus;
      registry := reg;
      currentCycleKey := None;
      currentCycleTicksRemaining := 0.0;
      currentCyclePowerCutTicks := 0;
      innerContainer := [];
      biotunedTo := None;
      biotunedCountdownTicks := 0;
      liquifiedNutrition := 0.0;
      devFillPodLatch := false;
      autoAgeReversal := false;
      queuedEnterJob := None;
      queuedPawn := None;
      pawnEnteringBiosculpter := None;
    }

    method SetBiotuned(newTo: Option<PawnId>)
      modifies this, registry
      ensures PodAndRegistry(Snapshot(), registry.pods) == SetBiotunedSpec(old(Snapshot()), old(registry.pods), podId, newTo)
    {
      if newTo != biotunedTo {
        autoAgeReversal := false;
      }
      if biotunedTo.Some? && biotunedTo.value in registry.pods {
        registry.pods := registry.pods[biotunedTo.value := RemoveFirst(registry.pods[biotunedTo.value], podId)];
      }
      assert registry.pods == Unlisted(old(registry.pods), biotunedTo, podId);
      if newTo.Some? && newTo.value !in registry.pods {
        registry.pods := registry.pods[newTo.value := []];
      }
      assert registry.pods == WithKey(Unlisted(old(registry.pods), biotunedTo, podId), newTo);
      if newTo.Some? && podId !in registry.pods[newTo.value] {
        registry.pods := registry.pods[newTo.value := registry.pods[newTo.value] + [podId]];
      }
      if newTo.Some? && newTo != biotunedTo {
        biotunedCountdownTicks := BiotunedDuration;
      }
      biotunedTo := newTo;
    }

    /**
     * PawnCarryingExtraCycleIngredients: every count is checked before any
     * is removed; `remove` takes them from the returned inventory.
     */
    method PawnCarryingExtraCycleIngredients(inventory: Inventory, cycle: Cycle, remove: bool)
      returns (ok: bool, inv: Inventory)
      ensures ok == CarriesExtraIngredients(devFillPodLatch, inventory, cycle)
      ensures inv == InventoryAfterCheck(devFillPodLatch, inventory, cycle, remove)
    {
      if cycle.extraRequiredIngredients.None? || |cycle.extraRequiredIngredients.value| == 0 || devFillPodLatch {
        return true, inventory;
      }
      var ings := cycle.extraRequiredIngredients.value;
      var i := 0;
      while i < |ings|
        invariant 0 <= i <= |ings|
        invariant forall j :: 0 <= j < i ==> Count(inventory, ings[j].thingDef) >= ings[j].count
      {
        if Count(inventory, ings[i].thingDef) < ings[i].count {
          return false, inventory;
        }
        i := i + 1;
      }
      inv := inventory;
      if remove {
        i := 0;
        while i < |ings|
          invariant 0 <= i <= |ings|
          invariant inv == RemoveIngredients(inventory, ings[..i])
        {
          assert ings[..i + 1][..i] == ings[..i];
          inv := RemoveCount(inv, ings[i].thingDef, ings[i].count);
          i := i + 1;
        }
        assert ings[..|ings|] == ings;
      }
      ok := true;
    }

    method TryAcceptPawn(pawn: PawnId, powerOn: bool, inventory: Inventory, cycle: Cycle)
      returns (accepted: bool, inv: Inventory)
      modifies this
      ensures AcceptResult(accepted, Snapshot(), inv) == TryAcceptSpec(old(Snapshot()), pawn, powerOn, inventory, cycle)
    {
      ghost var goal := TryAcceptSpec(Snapshot(), pawn, powerOn, inventory, cycle);
      ghost var p := Snapshot();
      if !Snapshot().CanAcceptOnceCycleChosen(pawn, powerOn) {
        return false, inventory;
      }
      var carries;
      carries, inv := PawnCarryingExtraCycleIngredients(inventory, cycle, true);
      if !carries {
        return false, inventory;
      }
      assert goal == AcceptResult(true, p.Accepted(pawn, cycle), inv);
      EnterCycle(pawn, cycle);
      accepted := true;
    }

    /** The accepting half of TryAcceptPawn: the cycle starts and the pawn is moved from entering to contained. */
    method EnterCycle(pawn: PawnId, cycle: Cycle)
      modifies this
      ensures Snapshot() == old(Snapshot()).Accepted(pawn, cycle)
    {
      currentCycleKey := Some(cycle.key);
      innerContainer := [];
      pawnEnteringBiosculpter := Some(pawn);
      innerContainer := innerContainer + [PawnThing(pawn)];
      pawnEnteringBiosculpter := None;
      currentCycleTicksRemaining := cycle.durationDays * TicksPerDay;
      liquifiedNutrition := 0.0;
      devFillPodLatch := false;
      queuedEnterJob, queuedPawn := None, None;
      assert innerContainer == [PawnThing(pawn)];
    }

    /**
     * EjectContents: everything in the container is dropped; an interrupted
     * occupant is the pawn that gets the biosculpting sickness.
     */
    method EjectContents(interrupted: bool) returns (dropped: seq<ContainedThing>, sickened: Option<PawnId>)
      modifies this
      ensures Snapshot() == old(Snapshot()).Ejected()
      ensures dropped == old(innerContainer)
      ensures sickened == if interrupted then old(Snapshot().Occupant()) else None
    {
      var occupant := Snapshot().Occupant();
      currentCycleKey := None;
      currentCycleTicksRemaining := 0.0;
      currentCyclePowerCutTicks := 0;
      liquifiedNutrition := 0.0;
      devFillPodLatch := false;
      dropped := innerContainer;
      innerContainer := [];
      sickened := if interrupted && occupant.Some? then occupant else None;
    }

    method CycleCompleted()
      modifies this, registry
      ensures PodAndRegistry(Snapshot(), registry.pods) == CycleCompletedSpec(old(Snapshot()), old(registry.pods), podId)
    {
      var occupant := Snapshot().Occupant();
      SetBiotuned(occupant);
      var _, _ := EjectContents(false);
    }

    /** LiquifyNutrition: each absorbable thing adds its nutrition, capped at 5, and is destroyed. */
    method LiquifyNutrition()
      modifies this`liquifiedNutrition, this`innerContainer
      ensures liquifiedNutrition == Absorb(old(liquifiedNutrition), old(innerContainer))
      ensures innerContainer == Kept(old(innerContainer))
    {
      var items := innerContainer;
      var i := 0;
      while i < |items|
        invariant 0 <= i <= |items|
        invariant innerContainer == Kept(items[..i]) + items[i..]
        invariant Absorb(liquifiedNutrition, items[i..]) == Absorb(old(liquifiedNutrition), items)
      {
        var item := items[i];
        var k := |Kept(items[..i])|;
        LiquifyStep(items, i, innerContainer, liquifiedNutrition, old(liquifiedNutrition));
        if Absorbable(item) {
          liquifiedNutrition := Mathf.MinReal(NutritionRequired, liquifiedNutrition + item.nutrition);
          innerContainer := innerContainer[..k] + innerContainer[k + 1..];
        }
        i := i + 1;
      }
      assert items[..|items|] == items;
    }

    /** The occupied part of CompTick. */
    method TickCycle(powerOn: bool, cleanliness: real, occupantSpeed: real)
      modifies this, registry
      ensures PodAndRegistry(Snapshot(), registry.pods) ==
                CycleTickSpec(old(Snapshot()), old(registry.pods), podId, powerOn, cleanliness, biotunedCycleSpeedFactor, occupantSpeed)
    {
      ghost var goal := CycleTickSpec(Snapshot(), registry.pods, podId, powerOn, cleanliness, biotunedCycleSpeedFactor, occupantSpeed);
      ghost var reg := registry.pods;
      if Snapshot().State() == Occupied {
        biotunedCountdownTicks := BiotunedDuration;
        ghost var q := Snapshot();
        if powerOn {
          var speed := Snapshot().CycleSpeedFactor(cleanliness, biotunedCycleSpeedFactor, occupantSpeed);
          currentCycleTicksRemaining := currentCycleTicksRemaining - speed;
          assert Snapshot() == q.(currentCycleTicksRemaining := q.currentCycleTicksRemaining - speed);
          if currentCycleTicksRemaining <= 0.0 {
            assert goal == CycleCompletedSpec(Snapshot(), reg, podId);
            CycleCompleted();
          } else {
            assert goal == PodAndRegistry(Snapshot(), reg);
          }
        } else {
          currentCyclePowerCutTicks := currentCyclePowerCutTicks + 1;
          if currentCyclePowerCutTicks >= NoPowerEjectCumulativeTicks {
            assert goal == PodAndRegistry(Snapshot().Ejected(), reg);
            var _, _ := EjectContents(true);
          } else {
            assert goal == PodAndRegistry(Snapshot(), reg);
          }
        }
      }
    }

    /** The biotune countdown at the end of CompTick. */
    method TickCountdown(powerOn: bool)
      modifies this, registry
      ensures PodAndRegistry(Snapshot(), registry.pods) ==
                CountdownTickSpec(PodAndRegistry(old(Snapshot()), old(registry.pods)), podId, powerOn)
    {
      if powerOn && biotunedCountdownTicks > 0 {
        biotunedCountdownTicks := biotunedCountdownTicks - 1;
      }
      if biotunedCountdownTicks <= 0 {
        SetBiotuned(None);
      }
    }

    method CompTick(powerOn: bool, cleanliness: real, occupantSpeed: real)
      modifies this, registry
      ensures PodAndRegistry(Snapshot(), registry.pods) ==
                TickSpec(old(Snapshot()), old(registry.pods), podId, powerOn, cleanliness, biotunedCycleSpeedFactor, occupantSpeed)
    {
      TickCycle(powerOn, cleanliness, occupantSpeed);
      TickCountdown(powerOn);
    }
  }
}
