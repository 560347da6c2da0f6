# RimWorld generation and rule logic, modelled in Dafny

This project models the rule-heavy parts of RimWorld and of the
RegeneratorGene mod that ships with it:

- **Pawn generation** (`Verse/PawnGenerator.cs`):
  - the retry ladder of up to 120 attempts. Scenario requirements are relaxed from attempt 70 and the caller's validator from attempt 100;
  - the stack of generations in flight, and how a failed attempt discards its pawns;
  - recycling ("redressing") world pawns;
  - age, skill, passion, trait and xenotype generation.

  It is split over the modules `PawnGeneration`, `PawnSessions`, `PawnRedress`, `PawnAge`, `PawnSkills`, `PawnTraits` and `PawnXenotypes`.
- **Limb regeneration** (`Regenerator`): the hourly pass of the mod's gene, and its cure helper.
- **The biosculpter pod** (`BiosculpterPod`):
  - its derived state, and its counters under accept, eject and tick;
  - the static registry of biotuned pods.
- **Inheritance and fertility** (`Pregnancy`): the can-produce-child checks, pregnancy chances, inherited genes, inbred chance, xenotype and hybrid rules, and the child's last name.
- **Precept names** (`Precepts`): the uniqueness search, the SetName cascade, Description and CopyTo.
- **Smaller rule code:**
  - `RecipeGenerator`: the derived Make_, bulk and Administer_ recipes;
  - `GenConstruct`: blueprint placement and terrain support;
  - `Targeting`: CanTarget and its presets;
  - `Storage`: chained storage acceptance;
  - `ThrownFleckEmitter`: the fleck emitter's tick;
  - `CorpsesColonist`: the colonist-corpse filter.

Code that changes state step by step becomes Dafny classes. Their methods carry `modifies` clauses and loops with invariants, and each method is proved against a specification function:
- the pod component;
- the generation stack;
- the world pawn registry;
- an ideo's precept list;
- a hediff set;
- the recipe database;
- storage settings;
- the fleck emitter.

Rule code becomes datatypes, functions and lemmas.

Some engine behaviour becomes explicit inputs:
- **Randomness:** the random number generator is replaced by explicit draws. A `Rand.Value` draw is a real in [0, 1). Integer draws are reduced to a range the way `Verse.Rand` does.
- **Engine queries:** stats, curve lookups of defs, relations, and the body-part and def databases are record fields or function-valued inputs.
- **Floats:** floats are reals. Severity is in hundredths.
- **Dictionaries:** a dictionary that is enumerated in insertion order is a sequence of pairs.

The modules `Wrappers`, `Rand`, `Mathf`, `SimpleCurves` and `Seqs` stand for the engine helpers the core calls:
- Option;
- the random draws;
- clamping and rounding;
- SimpleCurve;
- list counting and List.Remove.

Those helpers are not part of this model, so these modules get no rows below.

Where the code behaves differently from what its comments or names suggest, the model states what the code does:
- The age draw loop checks 300 draws against the allowed ages. It ends with one more draw that it keeps unchecked (`PawnAge.KeptAttempt`).
- When Precept name generation gives up after 52 raw names, it returns the last raw name, not the best one it tracked (`Precepts.GiveUpReturnsLastName`).
- Recycling a world pawn tries the former colonists first, then the settlement's earlier inhabitants, then any world pawn, and only then generates a new pawn.
- Cure that finds exactly 10000 further hediffs of the def removes them all and still reports too many iterations (`Regenerator.CureAllStopsAtTenThousand`).

Two loops of pawn generation are modelled twice, once as written and once corrected (see "## Findings"): discarding the pawns of a failed attempt, and matching a kind's required missing parts. The generation attempt and the recycling of world pawns are built on the corrected halves.

## Model

| member | source | states |
|---|---|---|
| BiosculpterPod.RemoveCount | DecompiledRim/RimWorld/CompBiosculpterPod.cs:958 | taking n of a def leaves the count less n, or none when fewer were carried, and no other def changes |
| BiosculpterPod.RemoveIngredientsKeepsOtherDefs | DecompiledRim/RimWorld/CompBiosculpterPod.cs:956-960 | removing a cycle's extra ingredients leaves every def they do not name untouched |
| BiosculpterPod.RemoveIngredientsTakesCounts | DecompiledRim/RimWorld/CompBiosculpterPod.cs:947-960 | when the pawn carries enough of each (distinct) ingredient, exactly the required count of each is taken |
| BiosculpterPod.Pod.RequiredNutritionRemaining | DecompiledRim/RimWorld/CompBiosculpterPod.cs:101 | never negative, zero exactly when the full 5 nutrition is loaded, and otherwise what is still missing of it |
| BiosculpterPod.Pod.Occupant | DecompiledRim/RimWorld/CompBiosculpterPod.cs:135-153 | the pawn entering, when one is; otherwise the single contained pawn, present exactly when a cycle is running and the container holds just that pawn |
| BiosculpterPod.Pod.CycleSpeedFactor | DecompiledRim/RimWorld/CompBiosculpterPod.cs:200-210 | the speed factor is never below 0.1 |
| BiosculpterPod.StateIsDerived | DecompiledRim/RimWorld/CompBiosculpterPod.cs:119-133 | the pod is occupied exactly when it has an occupant, selecting a cycle exactly when empty with full nutrition, and loading nutrition exactly when empty with less |
| BiosculpterPod.TotalNutrition | DecompiledRim/RimWorld/CompBiosculpterPod.cs:1058-1069 | the nutrition of the absorbable contents is never negative, and zero exactly when nothing absorbable is contained |
| BiosculpterPod.AbsorbIsCappedSum | DecompiledRim/RimWorld/CompBiosculpterPod.cs:1058-1069 | absorbing contents one by one, each capped at 5, gives the loaded nutrition plus their total, capped at 5 |
| BiosculpterPod.LiquifyStaysWithinCap | DecompiledRim/RimWorld/CompBiosculpterPod.cs:1058-1069 | liquifying never lowers the loaded nutrition and never takes it above 5 |
| BiosculpterPod.KeptKeepsPawns | DecompiledRim/RimWorld/CompBiosculpterPod.cs:1060-1068 | after liquifying, the container keeps exactly the things that cannot be absorbed, the occupant among them |
| BiosculpterPod.SetBiotunedFields | DecompiledRim/RimWorld/CompBiosculpterPod.cs:327-350 | the pod becomes biotuned to the new pawn; a new pawn restarts the countdown at 4800000 ticks; any change turns auto age reversal off; nothing else changes |
| BiosculpterPod.SetBiotunedRegistry | DecompiledRim/RimWorld/CompBiosculpterPod.cs:327-350 | the registry keeps no duplicates, lists this pod once under the new pawn, no longer under the old one, and changes no other pawn's list |
| BiosculpterPod.UnlistedMeaning | DecompiledRim/RimWorld/CompBiosculpterPod.cs:333-336 | removing the pod from the old pawn's list changes nothing else |
| BiosculpterPod.WithKeyMeaning | DecompiledRim/RimWorld/CompBiosculpterPod.cs:337-340 | adding an empty list for a pawn not yet registered keeps every existing list |
| BiosculpterPod.ListedMeaning | DecompiledRim/RimWorld/CompBiosculpterPod.cs:341-344 | adding the pod to the new pawn's list, when not listed yet, lists it exactly once and changes no other list |
| BiosculpterPod.EjectedPodIsEmpty | DecompiledRim/RimWorld/CompBiosculpterPod.cs:1003-1015 | after ejecting, the pod is empty, without nutrition and loading nutrition again |
| BiosculpterPod.PoweredOccupiedTick | DecompiledRim/RimWorld/CompBiosculpterPod.cs:1101-1113 | a powered tick with an occupant either advances the cycle by at least 0.1 and keeps it running, or completes it, biotuning the pod to the occupant and ejecting; either way the biotune countdown is reset |
| BiosculpterPod.UnpoweredOccupiedTick | DecompiledRim/RimWorld/CompBiosculpterPod.cs:1101-1122 | an unpowered tick with an occupant counts a power-cut tick and, at 60000 cumulative ticks, ejects the pawn; the cycle does not advance and the registry is unchanged |
| BiosculpterPod.IdleTickCountsDown | DecompiledRim/RimWorld/CompBiosculpterPod.cs:1158-1165 | without an occupant a tick only counts the biotune countdown down when powered, and clears the biotuning when it runs out |
| BiosculpterPod.AcceptedExactlyWhenReady | DecompiledRim/RimWorld/CompBiosculpterPod.cs:923-978 | a pawn is accepted exactly when the pod is selecting a cycle, powered, not biotuned to another pawn and the pawn carries the cycle's ingredients; a refused pawn changes nothing |
| BiosculpterPod.AcceptedPawnOccupies | DecompiledRim/RimWorld/CompBiosculpterPod.cs:979-1000 | an accepted pawn occupies the pod in the chosen cycle with its full duration, nutrition is used up, the dev fill latch and queued job are cleared and the biotuning is kept |
| BiosculpterPod.EjectAfterAccept | DecompiledRim/RimWorld/CompBiosculpterPod.cs:979-1029 | the accepted pawn is the pod's only content, and ejecting it returns the pod to loading nutrition with no cycle |
| BiosculpterPod.BiotuneRegistry.constructor | DecompiledRim/RimWorld/CompBiosculpterPod.cs:67 | the registry of biotuned pods starts empty |
| BiosculpterPod.CompBiosculpterPod.constructor | DecompiledRim/RimWorld/CompBiosculpterPod.cs:236-239 | a new pod is empty and unbiotuned, with no cycle and no nutrition |
| BiosculpterPod.CompBiosculpterPod.SetBiotuned | DecompiledRim/RimWorld/CompBiosculpterPod.cs:327-350 | the pod and the registry change as biotuning does |
| BiosculpterPod.CompBiosculpterPod.PawnCarryingExtraCycleIngredients | DecompiledRim/RimWorld/CompBiosculpterPod.cs:941-962 | the answer is whether the pawn carries the cycle's extra ingredients (always yes with the dev fill latch or no extras), and they are taken only when asked and carried |
| BiosculpterPod.CompBiosculpterPod.TryAcceptPawn | DecompiledRim/RimWorld/CompBiosculpterPod.cs:969-1000 | the result, the pod and the pawn's inventory are those of accepting the pawn |
| BiosculpterPod.CompBiosculpterPod.EnterCycle | DecompiledRim/RimWorld/CompBiosculpterPod.cs:979-1000 | the field writes of accepting a pawn into a cycle |
| BiosculpterPod.CompBiosculpterPod.EjectContents | DecompiledRim/RimWorld/CompBiosculpterPod.cs:1003-1029 | the pod is ejected, every contained thing is dropped, and the occupant is sickened exactly when the cycle was interrupted |
| BiosculpterPod.CompBiosculpterPod.CycleCompleted | DecompiledRim/RimWorld/CompBiosculpterPod.cs:1031-1037 | the pod is biotuned to the occupant and ejected |
| BiosculpterPod.CompBiosculpterPod.LiquifyNutrition | DecompiledRim/RimWorld/CompBiosculpterPod.cs:1058-1069 | the loop absorbs every absorbable content, capped at 5 nutrition, and keeps the rest in order |
| BiosculpterPod.CompBiosculpterPod.TickCycle | DecompiledRim/RimWorld/CompBiosculpterPod.cs:1101-1122 | an occupied tick changes the pod and registry as specified for a running cycle |
| BiosculpterPod.CompBiosculpterPod.TickCountdown | DecompiledRim/RimWorld/CompBiosculpterPod.cs:1158-1165 | an idle tick changes the pod and registry as specified for the biotune countdown |
| BiosculpterPod.CompBiosculpterPod.CompTick | DecompiledRim/RimWorld/CompBiosculpterPod.cs:1071-1168 | a tick changes the pod and registry as the tick specification does |
| Pregnancy.AcceptedIffAllChecksPass | DecompiledRim/RimWorld/PregnancyUtility.cs:78-125 | two pawns can have a child exactly when both are alive, of different genders, both fertile, both of reproductive age, the man is not sterile and the woman is not sterile unless pregnant or lactating |
| Pregnancy.FirstFailureIsReported | DecompiledRim/RimWorld/PregnancyUtility.cs:80-123 | the first pawn's death is reported before the second's, both before a shared gender, and a sterility refusal comes only after the fertility and age checks have passed |
| Pregnancy.AcceptanceIsSymmetric | DecompiledRim/RimWorld/PregnancyUtility.cs:88-93 | for a man and a woman the answer does not depend on which is passed first |
| Pregnancy.PregnantWomanNotSterile | DecompiledRim/RimWorld/PregnancyUtility.cs:115 | a pregnant or lactating woman is never counted as sterile, alone or together with the man |
| Pregnancy.PregnancyChanceForWoman | DecompiledRim/RimWorld/PregnancyUtility.cs:153-160 | zero when the woman is sterile or children are disallowed, else her fertility |
| Pregnancy.PregnancyChanceImplantEmbryo | DecompiledRim/RimWorld/PregnancyUtility.cs:127-130 | the chance lies in [0, 1] and is twice the woman's chance whenever that is at most one half |
| Pregnancy.GetPregnancyChanceFactor | DecompiledRim/RimWorld/PregnancyUtility.cs:633-641 | every approach gives a positive factor |
| Pregnancy.ApproachScalesChance | DecompiledRim/RimWorld/PregnancyUtility.cs:146-151 | trying for a baby gives four times the normal chance, and normal four times the chance when avoiding pregnancy |
| Pregnancy.SterileMeansNoChance | DecompiledRim/RimWorld/PregnancyUtility.cs:132-160 | a sterile woman, a sterile man or disallowed children give a chance of zero whatever the approach |
| Pregnancy.NoManUsesWomansChance | DecompiledRim/RimWorld/PregnancyUtility.cs:132-151 | without a man the chance is the woman's own chance times the approach factor |
| Pregnancy.TryGetInheritedXenotype | DecompiledRim/RimWorld/PregnancyUtility.cs:523-544 | two gene-carrying parents pass on their xenotype exactly when it is the same inheritable one; a single gene-carrying parent passes on an inheritable xenotype; otherwise none is inherited |
| Pregnancy.ShouldByHybrid | DecompiledRim/RimWorld/PregnancyUtility.cs:546-572 | with two gene-carrying parents the child is a hybrid exactly when either parent's xenotype is inheritable or either is a hybrid; with one, exactly when that one is a hybrid; with none, never |
| Pregnancy.InheritedXenotypeImpliesHybridRule | DecompiledRim/RimWorld/PregnancyUtility.cs:523-572 | when two gene-carrying parents pass on a xenotype the hybrid rule also holds |
| Pregnancy.InbredChanceFromParents | DecompiledRim/RimWorld/PregnancyUtility.cs:501-521 | the chance is zero without both parents; otherwise it is the largest inbred chance of the father's relations to the mother (at least zero), and the relation returned is present exactly when the chance is positive and is the first relation reaching it |
| Pregnancy.AddFatherGenes | DecompiledRim/RimWorld/PregnancyUtility.cs:436-445 | the table holds each heritable endogene of the father once, each at one half |
| Pregnancy.AddMotherGene | DecompiledRim/RimWorld/PregnancyUtility.cs:450-459 | one more of the mother's endogenes keeps the table right: an existing entry goes to one, a new heritable gene is added at one half |
| Pregnancy.AddMotherGenes | DecompiledRim/RimWorld/PregnancyUtility.cs:446-462 | after the mother's loop the table has one entry per heritable gene of either parent, at one when the father has it and the mother too (or the mother has it twice), else at one half |
| Pregnancy.GeneChances | DecompiledRim/RimWorld/PregnancyUtility.cs:436-462 | the two loops yield the chance table for the parents' heritable endogenes |
| Pregnancy.AddGenesWithChance | DecompiledRim/RimWorld/PregnancyUtility.cs:465-498 | the genes added are distinct, all come from the table, and for parents of different xenotypes every prefix keeps the metabolism sum within the drawn range |
| Pregnancy.AppendSkinAndInbred | DecompiledRim/RimWorld/PregnancyUtility.cs:472-479 | the skin gene is appended when there is one, Inbred when its roll succeeds and it is not listed yet, and nothing else; the list stays free of repeats |
| Pregnancy.GetInheritedGenes | DecompiledRim/RimWorld/PregnancyUtility.cs:433-499 | the genes are distinct; the metabolism range is one of 1, 2, 3; the genes from the table come from a parent's heritable endogenes and keep within the range unless the xenotypes match; only the skin gene and Inbred follow, and Inbred at most once |
| Pregnancy.RandomLastName | DecompiledRim/RimWorld/PregnancyUtility.cs:205-225 | no name exactly when no parent is given; otherwise a last name of one of the listed parents |
| Pregnancy.BirthingMotherCountedOnce | DecompiledRim/RimWorld/PregnancyUtility.cs:216 | a birthing mother who is also the genetic mother is not listed twice |
| Regenerator.ParentOf | Source/RegeneratorUtilities.cs:16 | a part's parent, when it has one, lies below it in the body's part table, so walks toward the root end |
| Regenerator.AnyLifeThreatening | Source/RegeneratorUtilities.cs:194-203 | true exactly when some stage is life-threatening |
| Regenerator.CanEverKill | Source/RegeneratorUtilities.cs:192-205 | a hediff can kill exactly when its def has some life-threatening stage or a lethal severity of zero or more |
| Regenerator.FirstMax | Source/RegeneratorUtilities.cs:116-161 | the index returned exists exactly when some hediff is a candidate, is a candidate of the largest key, and every earlier candidate has a strictly smaller key |
| Regenerator.FirstMaxFromSound | Source/RegeneratorUtilities.cs:116-136 | the loop that replaces its best only on a strictly larger key ends with the first candidate of largest key |
| Regenerator.FindImmunizableHediffWhichCanKill | Source/RegeneratorUtilities.cs:111-138 | some hediff is found exactly when a visible, curable, immunizable, not fully immune hediff that can kill exists; it is the most severe of them and the first on ties |
| Regenerator.FindNonInjuryMiscBadHediff | Source/RegeneratorUtilities.cs:139-163 | some hediff is found exactly when a visible, bad, curable hediff that is no injury, missing part, addiction or added part exists (and can kill, when asked); it has the largest coverage, whole-body ones counting 999, and is the first on ties |
| Regenerator.CureTarget | Source/RegeneratorUtilities.cs:31-39 | a cure is queued exactly when some immunizable lethal or misc-bad hediff exists, and it is one of the pawn's hediffs |
| Regenerator.LethalMiscBadPreferred | Source/RegeneratorUtilities.cs:32-38 | with no immunizable lethal hediff, a lethal misc-bad hediff is always chosen over non-lethal ones |
| Regenerator.ShapeKeepsQualification | Source/RegeneratorUtilities.cs:16-52 | whether a missing part qualifies or starts regrowing does not depend on severities, so the bumps made during the scan do not change it |
| Regenerator.NewRegrowth | Source/RegeneratorUtilities.cs:43-44 | a new regrowth has the gene's def, a fresh id, the missing part's part and severity 0.01 |
| Regenerator.Without | Source/RegeneratorUtilities.cs:57 | the result keeps exactly the hediffs whose ids are not listed |
| Regenerator.RemoveHediffIsWithout | Source/RegeneratorUtilities.cs:57 | with unique ids, removing one hediff removes exactly the hediffs with its id |
| Regenerator.RemoveAllIsWithout | Source/RegeneratorUtilities.cs:57 | the removal loop removes exactly the listed ids, whatever repeats the queue holds |
| Regenerator.ScanFacts | Source/RegeneratorUtilities.cs:14-55 | after the scan, the list is bumped, every regrowing missing part and every finished regrowth is queued for removal, and one regrowth with a fresh consecutive id is queued per part starting to regrow |
| Regenerator.RegenerateShape | Source/RegeneratorUtilities.cs:10-60 | a pass gives the bumped list without the queued ids, followed by the queued regrowths, with the id counter advanced by their number |
| Regenerator.RegenerationKeepsIdsUnique | Source/RegeneratorUtilities.cs:10-60 | a pass keeps hediff ids unique and below the id counter, which never goes down |
| Regenerator.MissingPartStartsRegrowing | Source/RegeneratorUtilities.cs:41-47 | a missing part that starts regrowing is replaced: its hediff is gone and a regrowth of severity 0.01 of the gene's def sits on its part |
| Regenerator.FinishedRegrowthRemoved | Source/RegeneratorUtilities.cs:50-53 | a regrowth that reaches severity 1.00 in the pass is removed |
| Regenerator.SurvivorsBumpedOnce | Source/RegeneratorUtilities.cs:50-59 | every old hediff left has been bumped exactly once and every new one is a fresh regrowth of severity 0.01, because the changes to the list are deferred to after the scan |
| Regenerator.QuietPassOnlyBumps | Source/RegeneratorUtilities.cs:10-60 | a pass with no regrowable missing part and no finishing regrowth only raises the regrowths' severities |
| Regenerator.FirstIndexOfDef | Source/RegeneratorUtilities.cs:179 | the first hediff of the def, or none when none is left |
| Regenerator.RemoveOfDefUpToCounts | Source/RegeneratorUtilities.cs:171-185 | each round removes one hediff of the def while any is left, and nothing of another def |
| Regenerator.CureAllRemovesEveryHediffOfDef | Source/RegeneratorUtilities.cs:165-188 | a cure-all cure with at most 10000 more hediffs of the def leaves none of it |
| Regenerator.CureAllStopsAtTenThousand | Source/RegeneratorUtilities.cs:172-186 | with 10000 or more left, exactly 10000 more are removed and the error is logged |
| Regenerator.CureKeepsOtherDefs | Source/RegeneratorUtilities.cs:165-188 | curing never touches hediffs of another def |
| Regenerator.HediffSet.constructor | Source/RegeneratorUtilities.cs:14 | an empty hediff list with the id counter at zero |
| Regenerator.HediffSet.NaturalRegenerationOfLimbs | Source/RegeneratorUtilities.cs:10-60 | the new list and id counter are the outcome of one pass over the old ones |
| Regenerator.HediffSet.ScanHediff | Source/RegeneratorUtilities.cs:14-55 | one loop iteration changes the list and queues as one step of the scan does |
| Regenerator.HediffSet.QueueForMissingPart | Source/RegeneratorUtilities.cs:16-48 | the qualification branch queues the cure target and, when nothing regrows above the part, a regrowth and the missing part's removal |
| Regenerator.HediffSet.NoRegrowthOnPathToRoot | Source/RegeneratorUtilities.cs:19-30 | the walk returns true exactly when no part from the missing part up to the root carries the gene's hediff |
| Regenerator.HediffSet.RemoveQueued | Source/RegeneratorUtilities.cs:57 | the list after the removal loop is the old list less each queued hediff in turn |
| Regenerator.HediffSet.AddQueued | Source/RegeneratorUtilities.cs:59 | the queued regrowths are appended in order |
| Regenerator.HediffSet.Cure | Source/RegeneratorUtilities.cs:165-190 | the list becomes the cure outcome of the old one, and the error is reported exactly when 10000 rounds went by without running out |
| Precepts.Precept.Description | DecompiledRim/RimWorld/Precept.cs:73-83 | the description is the override when it is set and non-empty, else the def's description |
| Precepts.CopyTo | DecompiledRim/RimWorld/Precept.cs:759-769 | the target takes over the eight identity fields (ideo, def, name, id, definite article, description override, random seed, name lock) and keeps its own kind and label cache |
| Precepts.CopyKeepsDescription | DecompiledRim/RimWorld/Precept.cs:759-769 | a copy describes itself as the original does, and copying a second time changes nothing |
| Precepts.Split | DecompiledRim/RimWorld/Precept.cs:336 | splitting at spaces gives at least one piece and no piece contains a space |
| Precepts.EligibleCount | DecompiledRim/RimWorld/Precept.cs:390-394 | the number of words of four or more letters is at most the number of words |
| Precepts.UsedCount | DecompiledRim/RimWorld/Precept.cs:395-398 | the used long words are at most the long words |
| Precepts.NameUniqueness | DecompiledRim/RimWorld/Precept.cs:384-406 | the score lies in [0, 1] and is 1 exactly when no long word of the name is already used |
| Precepts.UsedCountZero | DecompiledRim/RimWorld/Precept.cs:390-398 | no long word counts as used exactly when no word of four or more letters is in the used set |
| Precepts.ShortWordsAreUnique | DecompiledRim/RimWorld/Precept.cs:401-405 | a name whose words all have fewer than four letters scores 1 |
| Precepts.OtherNamesAreUsed | DecompiledRim/RimWorld/Precept.cs:330-342 | the whole name and every piece of another named precept of the same kind are used words |
| Precepts.OwnNameIgnored | DecompiledRim/RimWorld/Precept.cs:333 | a word that no other precept's name contributes is not used, whatever this precept's own name is |
| Precepts.FirstUnique | DecompiledRim/RimWorld/Precept.cs:356-381 | the accepted draw is one of the first 52 |
| Precepts.FirstUniqueSound | DecompiledRim/RimWorld/Precept.cs:356-381 | every draw before the accepted one scores below 1, and the accepted one scores 1 or is the 52nd draw |
| Precepts.GiveUpReturnsLastName | DecompiledRim/RimWorld/Precept.cs:367-380 | when the first draw scores 0.5 and every later one 0, the search still returns the 52nd draw, not the best one it tracked |
| Precepts.FirstOfDef | DecompiledRim/RimWorld/Precept.cs:347 | the first precept of a def is found exactly when one exists, and no earlier precept has that def |
| Precepts.Ideo.constructor | DecompiledRim/RimWorld/Precept.cs:331 | an ideo with the given precept list and hidden mode, valid exactly when every def takes its name from a def of lower id |
| Precepts.Ideo.CollectUsedWords | DecompiledRim/RimWorld/Precept.cs:330-342 | the loop collects exactly the used words: names and name pieces of the other named precepts of the same kind |
| Precepts.Ideo.GenerateNewName | DecompiledRim/RimWorld/Precept.cs:328-383 | the name of the first precept of the def it takes its name from; else the first raw name when uniqueness is ignored or the ideo is hidden; else the search result; the label cache is cleared only when no name is taken |
| Precepts.Ideo.RegenerateName | DecompiledRim/RimWorld/Precept.cs:409-412 | the precept's name becomes the newly generated one, and only names and label caches of it and its dependents change |
| Precepts.Ideo.SetName | DecompiledRim/RimWorld/Precept.cs:414-433 | an equal name changes nothing; otherwise the name is set, the label cache cleared, and every precept taking its name from this def ends with the name of that def's first precept, with only names and label caches changed |
| Precepts.Ideo.RenameDependents | DecompiledRim/RimWorld/Precept.cs:426-432 | after the loop every precept taking its name from the def carries the name of the def's first precept, which itself is unchanged |
| Precepts.CascadeStep | DecompiledRim/RimWorld/Precept.cs:426-432 | one dependent's regeneration keeps the renamed precept and its def's first name unchanged and extends the renamed prefix of dependents by one |
| RecipeGenerator.CostIngredients | DecompiledRim/RimWorld/RecipeDefGenerator.cs:101-107 | one ingredient per cost entry, in order, each the entry's count times the recipe count and allowing only the entry's def |
| RecipeGenerator.IngredientsFor | DecompiledRim/RimWorld/RecipeDefGenerator.cs:83-108 | the ingredient list has one entry for stuff when the def is made from stuff, plus one per cost entry when there is a cost list |
| RecipeGenerator.IngredientsLayout | DecompiledRim/RimWorld/RecipeDefGenerator.cs:87-107 | the stuff ingredient comes first, with CostStuffCount times the count and everything the def can be made of; every cost ingredient then allows exactly its def at count times the recipe count |
| RecipeGenerator.IngredientsScale | DecompiledRim/RimWorld/RecipeDefGenerator.cs:90-104 | a bulk recipe of count n has the same ingredient filters as the single recipe, each needing n times as much |
| RecipeGenerator.WorkScales | DecompiledRim/RimWorld/RecipeDefGenerator.cs:47 | with a work amount set, a recipe of count n takes n times the work of the single recipe |
| RecipeGenerator.UnsetWorkUsesStat | DecompiledRim/RimWorld/RecipeDefGenerator.cs:76-79 | with the work amount unset (negative), a bulk recipe takes n times the WorkToMake stat while the single recipe keeps the unset amount |
| RecipeGenerator.BulkNameDiffers | DecompiledRim/RimWorld/RecipeDefGenerator.cs:33-37 | a def's recipe of count n has the plain recipe's name exactly when n is 1 |
| RecipeGenerator.NamesDistinguishDefs | DecompiledRim/RimWorld/RecipeDefGenerator.cs:33-37 | two recipes of the same count with the same name come from defs with the same name |
| RecipeGenerator.BulkNameCanCollide | DecompiledRim/RimWorld/RecipeDefGenerator.cs:33-37 | the bulk recipe of def "A" and the plain recipe of def "ABulk" are both named "Make_ABulk" |
| RecipeGenerator.RecipeDef.constructor | DecompiledRim/RimWorld/RecipeDefGenerator.cs:32 | a new recipe has no ingredients, products or users, count 1, an unset work amount and no regeneration flag |
| RecipeGenerator.SetIngredients | DecompiledRim/RimWorld/RecipeDefGenerator.cs:83-108 | the ingredients are replaced by those of the def at the count and the count is stored; the fixed filter gains the stuff rule and the stuff flag is set only for a def made from stuff |
| RecipeGenerator.AssignMakerFields | DecompiledRim/RimWorld/RecipeDefGenerator.cs:33-79 | the recipe's name, label text, display priority (plus count - 1), work, its single product (count times the product count), target count adjustment and regeneration flag (set exactly when a difficulty cost list exists) |
| RecipeGenerator.CreateRecipeDefFromMaker | DecompiledRim/RimWorld/RecipeDefGenerator.cs:29-81 | a fresh recipe carrying all maker fields above and the ingredients of SetIngredients for the def at the count |
| RecipeGenerator.MakerPlan | DecompiledRim/RimWorld/RecipeDefGenerator.cs:17-27 | every planned recipe comes from a def with a recipe maker |
| RecipeGenerator.MakerPlanContents | DecompiledRim/RimWorld/RecipeDefGenerator.cs:17-27 | a def gets a plain recipe exactly when it has a maker, and a recipe of any other count exactly when its bulk count is positive and equal to that count |
| RecipeGenerator.DefsFromRecipeMakers | DecompiledRim/RimWorld/RecipeDefGenerator.cs:17-27 | the generated recipes are fresh and, one by one, built from the planned def and count |
| RecipeGenerator.ResetRecipeIngredientsForDifficulty | DecompiledRim/RimWorld/RecipeDefGenerator.cs:110-116 | exactly the recipes marked for difficulty changes get the ingredients of their first product's current def at their stored count; products, counts and flags stay put, and unmarked recipes keep their ingredients and filter |
| RecipeGenerator.Drugs | DecompiledRim/RimWorld/RecipeDefGenerator.cs:120 | exactly the drugs of the database, in its order |
| RecipeGenerator.FleshPawns | DecompiledRim/RimWorld/RecipeDefGenerator.cs:138-141 | exactly the pawn defs with flesh races |
| RecipeGenerator.CollectFleshPawns | DecompiledRim/RimWorld/RecipeDefGenerator.cs:137-141 | the loop collects exactly the flesh pawn defs, in database order |
| RecipeGenerator.AdministerRecipe | DecompiledRim/RimWorld/RecipeDefGenerator.cs:122-141 | a fresh "Administer_" recipe for the drug: one ingredient of count 1 allowing only the drug, work equal to its base ingest ticks, no body part, no anaesthesia, success factor 99999, users the flesh pawns, no product |
| RecipeGenerator.DrugAdministerDefs | DecompiledRim/RimWorld/RecipeDefGenerator.cs:118-144 | one such recipe per drug, in database order |
| RecipeGenerator.ImpliedRecipeDefs | DecompiledRim/RimWorld/RecipeDefGenerator.cs:9-15 | the maker recipes followed by the drug recipes, each as described above |
| GenConstruct.BuiltDefOf | DecompiledRim/RimWorld/GenConstruct.cs:372-379 | a blueprint or frame stands for the def it will build; any other def stands for itself |
| GenConstruct.HaulableAlwaysPlaceable | DecompiledRim/RimWorld/GenConstruct.cs:383-386 | a haulable old thing never prevents a blueprint, before any other rule is consulted |
| GenConstruct.AltitudeBlockingWins | DecompiledRim/RimWorld/GenConstruct.cs:406-417 | when either def blocks the other's altitude layer the placement is refused, even when the new def force-allows placement over the old one |
| GenConstruct.ForceAllowOverrides | DecompiledRim/RimWorld/GenConstruct.cs:388-417 | without altitude blocking and without the terrain-affordance refusal of a new floor, a def listed as force-allowed is always placeable |
| GenConstruct.NonStructureOldDef | DecompiledRim/RimWorld/GenConstruct.cs:418-422 | an old def that is no building, blueprint or frame is refused only by the impassable-plant rule (a building that may not go over an impassable plant), otherwise the blueprint is allowed |
| GenConstruct.NonEdificeOverBuilding | DecompiledRim/RimWorld/GenConstruct.cs:426-437 | a non-edifice over an old building is allowed exactly when that building permits non-edifices under it and the two do not both transmit power |
| GenConstruct.AmountNeededAbsent | DecompiledRim/RimWorld/GenConstruct.cs:183-193 | the amount needed of a material no cost entry names is 0 |
| GenConstruct.AmountNeededFirstMatch | DecompiledRim/RimWorld/GenConstruct.cs:183-193 | the amount needed is the count of the first entry of that material, whatever entries follow |
| GenConstruct.TerrainCanSupportExactly | DecompiledRim/RimWorld/GenConstruct.cs:630-640 | terrain supports a thing exactly when every occupied cell supports the needed affordance |
| GenConstruct.CellsAllowExactly | DecompiledRim/RimWorld/GenConstruct.cs:76-95 | the cell loop of CanBuildOnTerrain passes exactly when each cell's terrain, and every terrain-building thing on it other than the ignored one, offers the affordance |
| GenConstruct.CanBuildOnTerrainExactly | DecompiledRim/RimWorld/GenConstruct.cs:66-98 | when no floor would replace unchangeable terrain, building needing an affordance succeeds exactly when every occupied cell allows it |
| Storage.EmptyFilter | DecompiledRim/RimWorld/StorageSettings.cs:52-55 | a new filter allows no thing |
| Storage.StorageSettings.AllowedToAccept | DecompiledRim/RimWorld/StorageSettings.cs:90-105 | accepting a thing needs the own filter to allow it |
| Storage.StorageSettings.AllowedToAcceptDef | DecompiledRim/RimWorld/StorageSettings.cs:107-122 | accepting a def needs the own filter to allow it |
| Storage.StorageSettings.AcceptedIffEveryFilterAllows | DecompiledRim/RimWorld/StorageSettings.cs:90-105 | a thing is accepted exactly when every settings object along the parent chain allows it |
| Storage.StorageSettings.DefAcceptedIffEveryFilterAllows | DecompiledRim/RimWorld/StorageSettings.cs:107-122 | a def is accepted exactly when every settings object along the parent chain allows it |
| Storage.StorageSettings.ChildAcceptsNoMoreThanParent | DecompiledRim/RimWorld/StorageSettings.cs:96-103 | whatever nested settings accept, their parent settings accept too |
| Storage.StorageSettings.Plain | DecompiledRim/RimWorld/StorageSettings.cs:52-55 | the parameterless constructor gives no owner, an empty filter and Normal priority (StorageSettings.cs:15) |
| Storage.StorageSettings.constructor | DecompiledRim/RimWorld/StorageSettings.cs:57-69 | constructing with an owner takes over the priority of the owner's parent settings when there are any, else Normal, with an empty filter, and keeps the chain acyclic |
| Storage.StorageSettings.SetPriority | DecompiledRim/RimWorld/StorageSettings.cs:21-50 | the priority becomes the value set, nothing else changes, and valid settings stay valid |
| Storage.StorageSettings.CopyFrom | DecompiledRim/RimWorld/StorageSettings.cs:83-88 | the priority and the filter allowances become the other settings' ones, and the owner is notified once (StorageSettings.cs:124-127); the result is valid |
| Storage.MemoizedUntilReset | DecompiledRim/RimWorld/StorageSettings.cs:129-144 | two lookups of the ever-storable fixed settings return the same object; after ResetStaticData the next lookup builds a fresh one with the given ever-storable filter, normal priority and no owner, and caches it |
| Storage.FixedSettingsCache.constructor | DecompiledRim/RimWorld/StorageSettings.cs:8 | the static cache starts empty |
| Storage.FixedSettingsCache.EverStorableFixedSettings | DecompiledRim/RimWorld/StorageSettings.cs:129-139 | the first call builds fresh owner-less settings with the ever-storable filter and Normal priority; later calls return that same object |
| Storage.FixedSettingsCache.ResetStaticData | DecompiledRim/RimWorld/StorageSettings.cs:141-144 | the reset empties the cache, so the next lookup builds new settings |
| Targeting.Default | DecompiledRim/RimWorld/TargetingParameters.cs:10-80 | new parameters target pawns, buildings, animals, humans, mechanoids and bloodfeeders, require map objects to be auto-attackable, and target no locations, items, plants or corpses, with no validator and no specific thing |
| Targeting.CanTarget | DecompiledRim/RimWorld/TargetingParameters.cs:82-288 | a target is accepted only when the validator, if any, accepts it (84-87), and a thing only when it passes the general filters: flammability, selectability, faction list, region, damage and the colonist and prisoner flags (97-120) |
| Targeting.LocationTargets | DecompiledRim/RimWorld/TargetingParameters.cs:84-91 | a bare map location is accepted exactly when locations are allowed and the validator agrees |
| Targeting.DoorRules | DecompiledRim/RimWorld/TargetingParameters.cs:92-95 | no door is accepted under neverTargetDoors, and nothing but a door under onlyTargetDoors (116-119) |
| Targeting.CorpsesDecidedByRace | DecompiledRim/RimWorld/TargetingParameters.cs:121-136 | with corpses allowed, a corpse past the filters is accepted exactly when its inner pawn's race is not an excluded mechanoid, animal or humanlike |
| Targeting.ShortcutsAccepted | DecompiledRim/RimWorld/TargetingParameters.cs:137-144 | the specific thing, and a fire when fires are allowed, are accepted once the validator and the filters pass |
| Targeting.IncapacitationRules | DecompiledRim/RimWorld/TargetingParameters.cs:145-158 | an accepted downed pawn means neverTargetIncapacitated is off; an accepted standing pawn means onlyTargetIncapacitatedPawns is off |
| Targeting.BloodfeedersExcluded | DecompiledRim/RimWorld/TargetingParameters.cs:145-255 | with Biotech active and bloodfeeders excluded, a bloodfeeder is never accepted as a pawn |
| Targeting.OtherThingsNeedTheirFlag | DecompiledRim/RimWorld/TargetingParameters.cs:256-287 | a non-pawn thing that is no shortcut or corpse case is accepted only as a building with buildings allowed, a plant with plants allowed, or with items allowed |
| Targeting.ForSelfExactly | DecompiledRim/RimWorld/TargetingParameters.cs:290-299 | ForSelf accepts exactly the pawn itself, although it disables pawns and buildings |
| Targeting.ArresterNeverTargetsSelf | DecompiledRim/RimWorld/TargetingParameters.cs:301-322 | the arrest parameters never accept the arrester |
| Targeting.AttackHostileTargets | DecompiledRim/RimWorld/TargetingParameters.cs:324-350 | hostile attack accepts only things its validator names: a non-deconstructible attackable thing, a thing hostile to the player, or a non-humanlike pawn or wild man |
| Targeting.AttackAnyItemsMustBeAttackable | DecompiledRim/RimWorld/TargetingParameters.cs:352-361 | attacking anything accepts an item or other map object exactly when it is auto-attackable |
| Targeting.RescueOnlyDowned | DecompiledRim/RimWorld/TargetingParameters.cs:363-372 | rescue accepts downed pawns only |
| Targeting.StripOnlyStrippable | DecompiledRim/RimWorld/TargetingParameters.cs:374-383 | strip accepts only things the colony may strip |
| Targeting.CarryOnlyDowned | DecompiledRim/RimWorld/TargetingParameters.cs:385-394 | carry accepts downed pawns only |
| Targeting.DraftedCarryBedOnlyBeds | DecompiledRim/RimWorld/TargetingParameters.cs:396-405 | a drafted carry to bed accepts only buildings that are valid beds |
| Targeting.DraftedCarryTransporterTargets | DecompiledRim/RimWorld/TargetingParameters.cs:407-416 | a drafted carry to a transporter accepts only things with a transporter, and one that is no building only when it is auto-attackable |
| Targeting.DraftedCarryCasketTargets | DecompiledRim/RimWorld/TargetingParameters.cs:418-427 | a drafted carry to a casket accepts only cryptosleep caskets, under the same building-or-auto-attackable rule |
| Targeting.TradeOnlyTraders | DecompiledRim/RimWorld/TargetingParameters.cs:429-438 | trade accepts only pawns that can trade now |
| Targeting.DropPodsOnlyLocations | DecompiledRim/RimWorld/TargetingParameters.cs:440-452 | a drop pod destination is exactly a location that is a good drop spot, never a thing |
| Targeting.QuestJoinersAlive | DecompiledRim/RimWorld/TargetingParameters.cs:454-467 | the quest preset accepts only living pawns that will join the colony when rescued |
| Targeting.OpenOnlyOpenableBuildings | DecompiledRim/RimWorld/TargetingParameters.cs:469-478 | open accepts only buildings that can be opened |
| Targeting.ShuttleTargets | DecompiledRim/RimWorld/TargetingParameters.cs:480-505 | loading a shuttle accepts only living pawns other than the hauler that are downed, secure prisoners, animals or wild men |
| Targeting.ForBuildingAcceptsBuildingsOfDef | DecompiledRim/RimWorld/TargetingParameters.cs:507-523 | the building preset accepts only buildings, and only of the given def when one is given |
| Targeting.TendTargets | DecompiledRim/RimWorld/TargetingParameters.cs:525-550 | tending never accepts a wild man, and a standing pawn only when it is a colonist, a quest lodger, a prisoner or slave of the colony, or a player animal |
| Targeting.RepairOnlyRepairableBuildings | DecompiledRim/RimWorld/TargetingParameters.cs:552-559 | repair accepts only buildings the pawn can ever repair |
| Targeting.BiosculpterCarryTargets | DecompiledRim/RimWorld/TargetingParameters.cs:561-570 | carrying to a biosculpter pod accepts only player-controlled colonists and prisoners of the colony |
| Targeting.XenogermAbsorptionTargets | DecompiledRim/RimWorld/TargetingParameters.cs:572-601 | xenogerm absorption accepts only carriers of the reimplanter gene that are downed or secure prisoners of the colony |
| Targeting.DeathresterTargets | DecompiledRim/RimWorld/TargetingParameters.cs:603-614 | carrying a deathrester to bed accepts only deathresting player-controlled colonists or prisoners of the colony |
| Targeting.BabyCareOnlyHumanlike | DecompiledRim/RimWorld/TargetingParameters.cs:616-631 | baby care accepts humanlike pawns only |
| Targeting.RomanceOnlyColonists | DecompiledRim/RimWorld/TargetingParameters.cs:633-649 | romance accepts only humanlike colonists that are not guests |
| Targeting.BloodfeedingTargets | DecompiledRim/RimWorld/TargetingParameters.cs:651-670 | with Biotech active, bloodfeeding accepts only secure prisoners of the colony that are not bloodfeeders |
| Targeting.ColonistOnlyColonists | DecompiledRim/RimWorld/TargetingParameters.cs:672-680 | the colonist preset accepts only colonists that are not guests |
| Targeting.MechOnlyFactionMechs | DecompiledRim/RimWorld/TargetingParameters.cs:682-693 | the mech preset accepts only mechanoids that belong to a faction |
| CorpsesColonist.Matches | DecompiledRim/RimWorld/SpecialThingFilterWorker_CorpsesColonist.cs:7-23 | a match is always a humanlike corpse of the player faction, and with Ideology active never a slave's |
| CorpsesColonist.MatchesExactly | DecompiledRim/RimWorld/SpecialThingFilterWorker_CorpsesColonist.cs:9-22 | the filter matches exactly the corpses of humanlike player-faction pawns that are not slaves under Ideology |
| CorpsesColonist.SlaveStatusIgnoredWithoutIdeology | DecompiledRim/RimWorld/SpecialThingFilterWorker_CorpsesColonist.cs:18-21 | without Ideology a slave's corpse is judged as if the pawn were free |
| ThrownFleckEmitter.IsOn | DecompiledRim/RimWorld/CompThrownFleckEmitter.cs:18-62 | an emitter that is on has a spawned parent and no gate that reports off (power, countdown, instrument, initiatable, loudspeaker, hack, empty crate) |
| ThrownFleckEmitter.BareBuildingIsOn | DecompiledRim/RimWorld/CompThrownFleckEmitter.cs:18-62 | a spawned parent without any gating component is on |
| ThrownFleckEmitter.OffTickChangesNothing | DecompiledRim/RimWorld/CompThrownFleckEmitter.cs:67-70 | a tick while off changes neither field and throws no fleck |
| ThrownFleckEmitter.PeriodicEmission | DecompiledRim/RimWorld/CompThrownFleckEmitter.cs:71-82 | with interval k, n ticks on from counter c throw (c + n) / (k + 1) bursts and leave the counter at (c + n) mod (k + 1) |
| ThrownFleckEmitter.OneShotEmission | DecompiledRim/RimWorld/CompThrownFleckEmitter.cs:83-87 | with interval -1, any run of ticks on throws exactly one burst and sets emittedBefore |
| ThrownFleckEmitter.OneShotStays | DecompiledRim/RimWorld/CompThrownFleckEmitter.cs:83-87 | once emittedBefore is set, a one-shot emitter never throws again |
| ThrownFleckEmitter.CompThrownFleckEmitter.constructor | DecompiledRim/RimWorld/CompThrownFleckEmitter.cs:8-10 | a new component has not emitted and its counter is 0 |
| ThrownFleckEmitter.CompThrownFleckEmitter.Emit | DecompiledRim/RimWorld/CompThrownFleckEmitter.cs:90-101 | one emission creates exactly burstCount flecks (none for a non-positive count) |
| ThrownFleckEmitter.CompThrownFleckEmitter.CompTick | DecompiledRim/RimWorld/CompThrownFleckEmitter.cs:65-88 | the fields and the fleck count after a tick are those of the tick function, whose emission rules are the lemmas above |
| PawnGeneration.VerdictMeaning | DecompiledRim/Verse/PawnGenerator.cs:887-960 | a passing attempt is alive unless dead pawns are allowed, can do every skill of its kind, reaches the kind's total skill minimum and passes both validators unless they are ignored; ignoring the scenario or the validators rules out those errors |
| PawnGeneration.RelaxingKeepsSuccess | DecompiledRim/Verse/PawnGenerator.cs:935-955 | ignoring more requirements never makes a passing attempt fail |
| PawnGeneration.WithNested | DecompiledRim/Verse/PawnGenerator.cs:961-968 | every open session keeps its pawn and flag, and its list gains the nested pawns in order (the list is allocated once any is added) |
| PawnGeneration.NestedStep | DecompiledRim/Verse/PawnGenerator.cs:961-978 | one more nested generation, once pushed, recorded and popped, appends its pawn to every session below it |
| PawnGeneration.BeforeChecks | DecompiledRim/Verse/PawnGenerator.cs:686-687 | the attempt's own session sits on top and lists exactly the pawns generated during the attempt |
| PawnGeneration.AttemptRestoresHeight | DecompiledRim/Verse/PawnGenerator.cs:975-978 | every exit of an attempt leaves the session stack as high as it was |
| PawnGeneration.SuccessRecordsInEnclosing | DecompiledRim/Verse/PawnGenerator.cs:961-973 | on success every enclosing list gains the nested pawns and then the new pawn, and nothing is discarded |
| PawnGeneration.DiscardRestoresEnclosing | DecompiledRim/Verse/PawnGenerator.cs:1002-1027 | a discarding failure hands the pawn and every nested pawn to the world for discard, in that order, and leaves every enclosing list as it was |
| PawnGeneration.RequiredSkillFailureLeaks | DecompiledRim/Verse/PawnGenerator.cs:905-916 | a pawn incapable of a required skill is not discarded: the discard log and the world are unchanged and the nested pawns stay in every enclosing list |
| PawnGeneration.AttemptKeepsPrefix | DecompiledRim/Verse/PawnGenerator.cs:961-968 | an attempt keeps every list below a recorded one allocated |
| PawnGeneration.NestedGenerations | DecompiledRim/Verse/PawnGenerator.cs:961-968 | the nested generations leave the stack as recording their pawns does |
| PawnGeneration.TryGenerateNewPawnInternal | DecompiledRim/Verse/PawnGenerator.cs:683-979 | the state after the attempt is its specified effect, the error is the first failing check, and the pawn is returned exactly when there is no error |
| PawnGeneration.FirstSuccess | DecompiledRim/Verse/PawnGenerator.cs:655-674 | the index of the first passing attempt, or 120 when every attempt fails; every attempt before it fails |
| PawnGeneration.FirstSuccessAt | DecompiledRim/Verse/PawnGenerator.cs:655-674 | the first success from a made attempt on lies between it and 120 |
| PawnGeneration.LadderFindsPassingAttempt | DecompiledRim/Verse/PawnGenerator.cs:655-674 | if any of the 120 attempts would pass under its own flags, the ladder returns a pawn no later than it |
| PawnGeneration.ScenarioFailureRelaxed | DecompiledRim/Verse/PawnGenerator.cs:657-666 | from attempt 70 on, an attempt the scenario rejected can fail only on a validator, and from attempt 100 on it passes |
| PawnGeneration.LadderUnfold | DecompiledRim/Verse/PawnGenerator.cs:655-674 | a passing attempt ends the ladder with its effect; a failing one carries on with the next attempt |
| PawnGeneration.LadderRestoresHeight | DecompiledRim/Verse/PawnGenerator.cs:655-674 | the whole ladder leaves the session stack as high as it was |
| PawnGeneration.LadderStep | DecompiledRim/Verse/PawnGenerator.cs:657-673 | one rung: on a pawn the ladder is done and the rung is the first success; otherwise the rest of the ladder still leads to the same state |
| PawnGeneration.GenerateNewPawnInternal | DecompiledRim/Verse/PawnGenerator.cs:649-681 | the state is the ladder's; a pawn is returned exactly when some attempt passes, and it is the first passing attempt's pawn with that attempt's request written back; otherwise the request is unchanged |
| PawnSessions.Recorded | DecompiledRim/Verse/PawnGenerator.cs:961-968 | recording a pawn appends it to every enclosing session's list, allocating the list when missing, and leaves the innermost session alone |
| PawnSessions.RecordedKeepsPrefix | DecompiledRim/Verse/PawnGenerator.cs:961-968 | recording keeps every enclosing list allocated, keeps what each held, and puts the pawn in each |
| PawnSessions.RemoveFromAll | DecompiledRim/Verse/PawnGenerator.cs:1022-1025 | every session keeps its pawn, flag and allocation, and each list loses the first occurrence of the pawn |
| PawnSessions.RemoveAllOf | DecompiledRim/Verse/PawnGenerator.cs:1014-1025 | every list loses each of the given pawns once, in order, and nothing else about the sessions changes |
| PawnSessions.RemoveEachRemoves | DecompiledRim/Verse/PawnGenerator.cs:1024 | a pawn a list holds no more often than it is removed from it is gone from it |
| PawnSessions.RemoveEachCount | DecompiledRim/Verse/PawnGenerator.cs:1024 | each removal takes at most one occurrence of the pawn |
| PawnSessions.RemoveEachAbsent | DecompiledRim/Verse/PawnGenerator.cs:1024 | removing pawns a list does not hold leaves it as it was |
| PawnSessions.RemoveEachAppended | DecompiledRim/Verse/PawnGenerator.cs:1024 | removing the distinct newly appended pawns, each once, restores the original list |
| PawnSessions.RemoveEachPrefix | DecompiledRim/Verse/PawnGenerator.cs:1024 | removing distinct pawns appended after a list, with more pawns after them, leaves the list followed by the rest |
| PawnSessions.WalkAsWritten | DecompiledRim/Verse/PawnGenerator.cs:1014-1025 | the pawns the index walk discards are those it visits in the innermost list as that list shrinks |
| PawnSessions.Evens | DecompiledRim/Verse/PawnGenerator.cs:1014-1025 | the pawns at even positions: half the list rounded up, all from the list |
| PawnSessions.WalkVisitsEvens | DecompiledRim/Verse/PawnGenerator.cs:1014-1025 | on a list without repeats the walk visits exactly the pawns at even positions |
| PawnSessions.SecondPawnEscapes | DecompiledRim/Verse/PawnGenerator.cs:1014-1025 | as written, the second of two or more distinct pawns generated in the meantime is never discarded |
| PawnSessions.AsWrittenKeepsSecondPawn | DecompiledRim/Verse/PawnGenerator.cs:1014-1025 | of the pawns [5, 6] generated in the meantime, only 5 is discarded and 6 stays in the enclosing list |
| PawnSessions.PawnGenerationStack.constructor | DecompiledRim/Verse/PawnGenerator.cs:30 | no session is open, nothing is discarded, and the world holds the given pawns |
| PawnSessions.PawnGenerationStack.Push | DecompiledRim/Verse/PawnGenerator.cs:687 | the new session goes on top |
| PawnSessions.PawnGenerationStack.Pop | DecompiledRim/Verse/PawnGenerator.cs:975-978 | the top session is removed |
| PawnSessions.PawnGenerationStack.RecordSuccess | DecompiledRim/Verse/PawnGenerator.cs:961-968 | the sessions become those recording the pawn |
| PawnSessions.PawnGenerationStack.PassToWorldForDiscard | DecompiledRim/Verse/PawnGenerator.cs:1004-1021 | the pawn leaves the world pawns and is logged for discard |
| PawnSessions.PawnGenerationStack.RemoveEverywhere | DecompiledRim/Verse/PawnGenerator.cs:1022-1025 | every session's list loses the pawn once |
| PawnSessions.PawnGenerationStack.DiscardAsWritten | DecompiledRim/Verse/PawnGenerator.cs:1002-1027 | as written: the pawn is discarded, then the pawns the index walk visits, with the lists left as the walk leaves them; without a list only the pawn is discarded |
| PawnSessions.PawnGenerationStack.DiscardGeneratedPawn | DecompiledRim/Verse/PawnGenerator.cs:1002-1027 | corrected: the pawn and every pawn generated in the meantime are discarded in order, leave the world, and are removed once from every list |
| PawnSessions.DiscardLeavesNoMeantimePawn | DecompiledRim/Verse/PawnGenerator.cs:1014-1025 | after the corrected discard, no pawn generated in the meantime is left in a list that held it at most once |
| PawnRedress.MissingPartsAsWrittenAccepts | DecompiledRim/Verse/PawnGenerator.cs:407-432 | as written, the missing-parts check accepts exactly the pawns without missing-part hediffs, the kinds that require none, and a single required part equal to the first hediff's part |
| PawnRedress.NoHediffsAlwaysPass | DecompiledRim/Verse/PawnGenerator.cs:409-430 | as written, a pawn with no missing-part hediff passes whatever parts the kind requires |
| PawnRedress.AsWrittenRejectsSecondHediff | DecompiledRim/Verse/PawnGenerator.cs:411-427 | as written, a pawn missing parts 1 and 2 is rejected for a kind requiring part 2 missing, which the intended check accepts |
| PawnRedress.AsWrittenAcceptsNoMissingPart | DecompiledRim/Verse/PawnGenerator.cs:409-430 | as written, a pawn missing nothing is accepted for a kind requiring part 2 missing, which the intended check rejects |
| PawnRedress.MissingPartsMatchedMeaning | DecompiledRim/Verse/PawnGenerator.cs:407-432 | the intended check passes exactly when the pawn misses each part at least as often as the kind requires it |
| PawnRedress.IsValidCandidateToRedress | DecompiledRim/Verse/PawnGenerator.cs:338-612 | a valid candidate has the kind's race, bleeds at most 0.001, is alive unless dead pawns are allowed and dead when death is forced, misses the required parts, keeps every skill in the kind's range, has the forced traits and none of the prohibited ones, and meets the kind's total skill minimum |
| PawnRedress.ChanceToRedressAnyWorldPawn | DecompiledRim/Verse/PawnGenerator.cs:1039-1048 | the chance is at least 0.02, at most 0.8 unless a larger minimum is requested, and never below the requested minimum |
| PawnRedress.RedressChanceGrows | DecompiledRim/Verse/PawnGenerator.cs:1041-1042 | more free world pawns never lower the chance, and with 780 or more it is capped at 0.8 |
| PawnRedress.WorldPawnSelectionWeight | DecompiledRim/Verse/PawnGenerator.cs:1050-1057 | the weight is 0.1 exactly for an unseen flesh pawn related to someone, and 1 otherwise |
| PawnRedress.Weights | DecompiledRim/Verse/PawnGenerator.cs:181-197 | each candidate is weighted by its selection weight, which is positive |
| PawnRedress.FormerColonists | DecompiledRim/Verse/PawnGenerator.cs:179-180 | exactly the candidates that were ever colonists or tame animals |
| PawnRedress.AmongInhabitants | DecompiledRim/Verse/PawnGenerator.cs:189-190 | exactly the candidates among the settlement's earlier inhabitants |
| PawnRedress.PickCandidate | DecompiledRim/Verse/PawnGenerator.cs:181-197 | a weighted pick succeeds exactly when there is a candidate, and picks one of them |
| PawnRedress.RedressChoice | DecompiledRim/Verse/PawnGenerator.cs:177-202 | a recycled pawn is a valid candidate, only when newborns are not required and no new pawn is forced; a former colonist ever was one, and an earlier inhabitant is listed at the settlement |
| PawnRedress.FormerColonistPreferred | DecompiledRim/Verse/PawnGenerator.cs:179-185 | when a former-colonist recycle is asked for and a valid former colonist exists, a former colonist is recycled |
| PawnRedress.RecycleWhenChanceHits | DecompiledRim/Verse/PawnGenerator.cs:197-201 | when the recycle chance comes up and some candidate is valid, a pawn is recycled |
| PawnRedress.WorldPawnRegistry.constructor | DecompiledRim/Verse/PawnGenerator.cs:188 | the world pawns and the tile's settlement inhabitants as given |
| PawnRedress.WorldPawnRegistry.GenerateOrRedressPawnInternal | DecompiledRim/Verse/PawnGenerator.cs:174-230 | the outcome is the specified one; a recycled pawn leaves the world pawns; a new inhabitant joins its settlement's list; nothing else changes |
| PawnAge.AgeAllowed | DecompiledRim/Verse/PawnGenerator.cs:1272-1295 | an allowed age lies within the kind's generation ages, has an allowed developmental stage, lies in the requested range and outside the excluded one |
| PawnAge.KeptAttempt | DecompiledRim/Verse/PawnGenerator.cs:1199-1224 | the draw kept is the first allowed one among the 300 checked draws, or else the 301st, which is not checked |
| PawnAge.RejectionKeepsAllowedAge | DecompiledRim/Verse/PawnGenerator.cs:1199-1225 | when any of the 300 checked draws is allowed, the biological age kept is allowed and is drawn no later than it |
| PawnAge.DrawBiologicalYears | DecompiledRim/Verse/PawnGenerator.cs:1197-1224 | the loop ends with the kept draw, after at most 301 draws |
| PawnAge.AgeTicks | DecompiledRim/Verse/PawnGenerator.cs:1186-1270 | the chronological age is never below the biological age |
| PawnAge.NewbornAgeZero | DecompiledRim/Verse/PawnGenerator.cs:1186-1230 | a newborn is zero ticks old, both biologically and chronologically |
| PawnAge.FixedAgesKept | DecompiledRim/Verse/PawnGenerator.cs:1191-1234 | consistent fixed biological and chronological ages are both kept, converted to ticks with truncation |
| PawnAge.NoCryptosleepSameAge | DecompiledRim/Verse/PawnGenerator.cs:1239-1270 | a pawn that was never in cryptosleep, with no fixed or ranged chronological age, is as old as it looks |
| PawnAge.GenerateRandomAge | DecompiledRim/Verse/PawnGenerator.cs:1179-1296 | the ages set are the specified ones, the chronological one at least the biological one, and the birth tick is the current tick less the chronological age |
| PawnTraits.DefsOf | DecompiledRim/Verse/PawnGenerator.cs:1428 | the defs held by a trait list, no more and no less |
| PawnTraits.AcceptKeepsSound | DecompiledRim/Verse/PawnGenerator.cs:1428-1451 | adding a trait that passes every check keeps the list free of repeated defs, held defs and rejected defs |
| PawnTraits.TraitsFrom | DecompiledRim/Verse/PawnGenerator.cs:1425-1453 | the loop only adds sound traits, never removes any, never goes past the requested count and adds nothing once it is reached |
| PawnTraits.GenerateTraitsFor | DecompiledRim/Verse/PawnGenerator.cs:1421-1459 | the list is the loop's, at most the requested count and sound; the counter stays within the count plus 500; the warning is logged exactly when the counter reaches that bound, that is exactly when too few traits were found |
| PawnTraits.GrowthMomentTraitIsNotSexuality | DecompiledRim/Verse/PawnGenerator.cs:1428 | a growth-moment draw of one trait under Biotech gives at most one trait and never a sexuality trait |
| PawnTraits.SexualityOptions | DecompiledRim/Verse/PawnGenerator.cs:1403-1411 | the options are none, then Gay when allowed, Bisexual and Asexual; Gay appears only when allowed |
| PawnTraits.WeightsOf | DecompiledRim/Verse/PawnGenerator.cs:1412 | the weights of the options, in order |
| PawnTraits.SexualityTraitGained | DecompiledRim/Verse/PawnGenerator.cs:1399-1419 | a pawn with a sexuality trait gains none; a trait gained is a sexuality trait of positive commonality and is not Gay unless allowed |
| PawnTraits.SexualityDrawPicks | DecompiledRim/Verse/PawnGenerator.cs:1412 | with Bisexual of positive commonality, the weighted draw always picks an option |
| PawnSkills.BestFromMeaning | DecompiledRim/Verse/PawnGenerator.cs:619-628 | the scan with a running maximum succeeds exactly when some remaining skill reaches the minimum |
| PawnSkills.BestSkillCheck | DecompiledRim/Verse/PawnGenerator.cs:613-629 | the best-skill check passes exactly when no minimum is set or some skill reaches it |
| PawnSkills.TotalFromMeaning | DecompiledRim/Verse/PawnGenerator.cs:637-646 | the scan with a running total succeeds exactly when the total so far plus the remaining levels reaches the minimum |
| PawnSkills.TotalSkillCheck | DecompiledRim/Verse/PawnGenerator.cs:631-647 | the total-skill check passes exactly when no minimum is set or the levels sum to at least it |
| PawnSkills.CurvesWellFormed | DecompiledRim/Verse/PawnGenerator.cs:1819-1821 | the age and final-adjustment curves have increasing x coordinates |
| PawnSkills.FirstRangeFor | DecompiledRim/Verse/PawnGenerator.cs:1826-1838 | the entry found is the kind's entry for the skill, and none is found exactly when the kind lists no range for it |
| PawnSkills.SkillLevelFor | DecompiledRim/Verse/PawnGenerator.cs:1794-1841 | the level lies in [0, 20], and a newborn's is 0 |
| PawnSkills.LevelWithinKindRange | DecompiledRim/Verse/PawnGenerator.cs:1826-1840 | a skill the kind lists with a range inside [0, 20] always ends within that range |
| PawnSkills.UnlistedSkillKeepsLevel | DecompiledRim/Verse/PawnGenerator.cs:1840 | a skill the kind does not list keeps its computed level, up to rounding, when that lies in [0, 20] |
| PawnSkills.BackstoryGainLoop | DecompiledRim/Verse/PawnGenerator.cs:1801-1810 | the loop sums each backstory gain for the skill, each scaled by its own draw |
| PawnSkills.TraitGainLoop | DecompiledRim/Verse/PawnGenerator.cs:1811-1818 | the loop sums the gains of the traits that are not suppressed |
| PawnSkills.KindRangeLoop | DecompiledRim/Verse/PawnGenerator.cs:1826-1838 | the loop stops at the kind's first entry for the skill |
| PawnSkills.FinalLevelOfSkill | DecompiledRim/Verse/PawnGenerator.cs:1794-1841 | the level returned is the specified skill level |
| PawnSkills.Budget | DecompiledRim/Verse/PawnGenerator.cs:1706-1718 | the passions bought never cost more than the budget, and less than one point of it is left unspent |
| PawnSkills.InitialBudget | DecompiledRim/Verse/PawnGenerator.cs:1705 | the initial budget lies in [1, 9] |
| PawnSkills.BudgetBounds | DecompiledRim/Verse/PawnGenerator.cs:1703-1718 | every pawn gets at least one passion, at most 6 major ones and at most 9 in all, costing at most the budget of 9 |
| PawnSkills.PassionBudget | DecompiledRim/Verse/PawnGenerator.cs:1703-1718 | the counters are those the specified budget loop buys |
| PawnSkills.BudgetLoop | DecompiledRim/Verse/PawnGenerator.cs:1706-1718 | the loop buys the passions of the specified budget |
| PawnSkills.BudgetStep | DecompiledRim/Verse/PawnGenerator.cs:1708-1717 | a turn buys a major passion for 1.5 when 1.5 is left and the coin says so, else a minor one for 1 |
| PawnSkills.CreatePassion | DecompiledRim/Verse/PawnGenerator.cs:1779-1791 | a major passion while majors remain, else a minor one while minors remain or when forced, else nothing changes |
| PawnSkills.ConflictsAnyMeaning | DecompiledRim/Verse/PawnGenerator.cs:1766-1773 | a skill has a conflict exactly when some trait conflicts with a passion for it |
| PawnSkills.MajorCountUpdate | DecompiledRim/Verse/PawnGenerator.cs:1783 | changing one skill's passion changes the count of major passions by the difference |
| PawnSkills.ByLevelFrom | DecompiledRim/Verse/PawnGenerator.cs:1759 | the skills at or below a level, highest first, ties in list order, each included |
| PawnSkills.OrderByLevelDescending | DecompiledRim/Verse/PawnGenerator.cs:1759 | every skill is visited |
| PawnSkills.OrderIsStableDescending | DecompiledRim/Verse/PawnGenerator.cs:1759 | the visiting order puts higher levels first and keeps list order on ties |
| PawnSkills.AnyConflict | DecompiledRim/Verse/PawnGenerator.cs:1765-1773 | the inner loop finds a conflict exactly when some trait conflicts with a passion for the skill |
| PawnSkills.ForcedPassions | DecompiledRim/Verse/PawnGenerator.cs:1719-1732 | the first pass gives a passion exactly to the enabled skills some trait requires one for, and spends no more major passions than were bought |
| PawnSkills.AdultStep | DecompiledRim/Verse/PawnGenerator.cs:1761-1777 | one skill of the adult pass: only that skill may change, a disabled skill never does, a passion is never taken away, and an eligible skill is left without one only when the counters are spent |
| PawnSkills.AdultLoop | DecompiledRim/Verse/PawnGenerator.cs:1759-1778 | after the adult pass, no disabled skill has a passion, none is taken away, and an eligible skill is left without one only when the counters are spent |
| PawnSkills.AdultPassions | DecompiledRim/Verse/PawnGenerator.cs:1759-1778 | the adult pass in level order gives every eligible skill a passion until the counters are spent, and never more major passions than were bought |
| PawnSkills.SkillLevels | DecompiledRim/Verse/PawnGenerator.cs:1696-1702 | every skill gets its specified level |
| PawnSkills.GenerateSkills | DecompiledRim/Verse/PawnGenerator.cs:1694-1792 | levels are the specified ones; disabled skills get no passion; every enabled skill a trait requires one for gets one; majors never exceed the budget; under 13 only those skills get passions; from 13 on an eligible skill lacks one only when the counters are spent |
| PawnXenotypes.AdjustEffect | DecompiledRim/Verse/PawnGenerator.cs:1629-1632 | adding a chance for a key already in the dictionary raises that key's weight and the total by the chance and leaves every other entry alone |
| PawnXenotypes.AppendEffect | DecompiledRim/Verse/PawnGenerator.cs:1633-1636 | adding a chance for a new key makes it weigh the chance, raises the total by it and leaves every other entry alone |
| PawnXenotypes.AddOrAdjustEffect | DecompiledRim/Verse/PawnGenerator.cs:1625-1638 | one AddOrAdjust keeps keys distinct and Baseliner out, and raises the entry's key and the total by the chance unless the entry is Baseliner |
| PawnXenotypes.AccumulateShape | DecompiledRim/Verse/PawnGenerator.cs:1589-1618 | after all entries the dictionary has distinct keys, no Baseliner, and totals the non-Baseliner chances |
| PawnXenotypes.AccumulateWeights | DecompiledRim/Verse/PawnGenerator.cs:1589-1618 | after all entries each mentioned non-Baseliner xenotype weighs the sum of its chances and an unmentioned one is absent |
| PawnXenotypes.AccumulateMeaning | DecompiledRim/Verse/PawnGenerator.cs:1589-1618 | the two statements above together |
| PawnXenotypes.AccumulateAppend | DecompiledRim/Verse/PawnGenerator.cs:1591-1618 | adding the faction, meme and kind sets in turn is adding their concatenation |
| PawnXenotypes.AvailableTableMeaning | DecompiledRim/Verse/PawnGenerator.cs:1587-1639 | the returned dictionary has no repeated key, weighs each mentioned non-Baseliner xenotype by its summed chance, holds no other xenotype, and holds Baseliner exactly when the others sum below 1, then bringing the total to exactly 1 (otherwise the total is at least 1) |
| PawnXenotypes.AddAll | DecompiledRim/Verse/PawnGenerator.cs:1593-1596 | the loop over one xenotype set leaves the dictionary that adding its entries in order gives |
| PawnXenotypes.AddMemeSets | DecompiledRim/Verse/PawnGenerator.cs:1598-1611 | the loop over the primary ideo's memes adds each meme's set in order and skips memes without one |
| PawnXenotypes.XenotypesAvailableFor | DecompiledRim/Verse/PawnGenerator.cs:1587-1624 | the method's dictionary is the one AvailableTableMeaning describes |
| PawnXenotypes.CombatantsOnly | DecompiledRim/Verse/PawnGenerator.cs:1575-1578 | every entry left after the removal is an entry of the dictionary whose xenotype can be generated as a combatant |
| PawnXenotypes.XenotypeFor | DecompiledRim/Verse/PawnGenerator.cs:1555-1564 | a forced xenotype is returned as is; a forced custom xenotype gives Baseliner |
| PawnXenotypes.XenotypeForChoices | DecompiledRim/Verse/PawnGenerator.cs:1565-1585 | without overrides the result is Baseliner or one of a non-empty allowed list; with no such list it is Baseliner or a xenotype of positive weight in the dictionary that can fight whenever violence is required |
| PawnXenotypes.CertainBaseliner | DecompiledRim/Verse/PawnGenerator.cs:1565-1568 | a forced Baseliner chance of 1 makes every pawn without a forced xenotype Baseliner |
| PawnXenotypes.GetXenotypeForGeneratedPawn | DecompiledRim/Verse/PawnGenerator.cs:1555-1586 | the method returns the xenotype XenotypeFor specifies for the same request and draws |

## Left out

- Gear, apparel, weapons, body, story, bio, names, relations, royalty titles, old-age injuries and tech hediffs are not modelled. Their effect on the acceptance checks is given per attempt as facts.
- `GenerateTraits` (PawnGenerator.cs:1307-1389) is left out: forced traits, backstory traits and the trait-count draw are engine plumbing around `GenerateTraitsFor`, which is modelled.
- The growth-moment passions of pawns under 13 (PawnGenerator.cs:1736-1756) are left out. The growth-moment passion options depend on engine state.
- Gaussian draws, `SimpleCurve.Evaluate` over def curves, `Rand.ByCurve`, and the `Find.*` registries are inputs. Only their ranges are assumed.
- Float rounding error is not modelled. `RoundToInt` and the truncating cast are exact functions on reals.
- Translation, messages, letters, logs, effecters, sounds and fleck rendering are left out.
- Fleck creation is counted, not performed.
- The pod's gizmos, inspect strings, drawing, and sine-based floating offset are left out.
- The pod's container is a sequence of contained things, each with its def, stack count, nutrition and whether it is a pawn (`ContainedThing`). The hauling jobs that fill it are left out.
- BiosculpterPod.CompBiosculpterPod.LiquifyNutrition: walks a snapshot of the container and destroys every absorbable thing it visits. The source enumerates the live container while `Destroy` removes the current thing from it; how that enumeration then behaves is not captured.
- PawnGeneration.TryGenerateNewPawnInternal, PawnGeneration.AttemptEffect, PawnGeneration.DiscardRestoresEnclosing and PawnGeneration.GenerateNewPawnInternal: a failed attempt discards every pawn generated in the meantime (`DiscardGeneratedPawn`, the corrected half of the first Findings row). The source's walk skips every second pawn; that as-written walk is modelled by `DiscardAsWritten` but the attempt does not use it.
- PawnRedress.KindChecks, PawnRedress.IsValidCandidateToRedress and PawnRedress.WorldPawnRegistry.GenerateOrRedressPawnInternal: the missing-part requirement is checked by `MissingPartsMatched`, the corrected half of the second Findings row. The source compares only the first missing-part hediff; that check is modelled by `MissingPartsAsWritten` but candidate selection does not use it.
- Precepts.Ideo.SetName, Precepts.Ideo.RegenerateName, Precepts.Ideo.RenameDependents and Precepts.CascadeStep: require `Valid()`, which says a precept def takes its name only from a def of lower id (`NamesFromLowerDefs`). The ordering is the measure by which the renaming cascade terminates. The source states no such ordering. Precept defs are not part of this model, so the model does not establish that the game's defs meet it. A def that takes its name from itself, which the source ends through the equal-name return, and longer cycles of `takeNameFrom` are not modelled.
- `ThingFilter` is reduced to the allowances `StorageSettings` reads. The notifications that `Priority` and `CopyFrom` send to the map and the filter are not modelled.
- `GetInheritedGenes` returns the shared static list itself. In the model each call returns a fresh sequence, so aliasing between calls is not captured.
- The shared scratch collections (`tmpXenotypeChances`, `tmpTraitChances`, `tmpGeneChances`, `tmpLastNames`, `tmpUsedWords`) are locals.
- `Precepts.Ideo.SetName` covers a precept that has an ideo. With a null ideo, the source's cascade over dependents is not modelled.
- Precepts.Ideo.GenerateNewName: requires that the precept named by `takeNameFrom` exists (`NameSourceExists`). Otherwise the source's `First` throws, and that crash is not modelled.
- `BiosculpterPod.Pod.CycleSpeedFactor` states only the 0.1 floor. The stat value it scales is an engine input.
- The unused helpers of RegeneratorUtilities.cs (`GetAllLostBp`, `HealLimb`, `GetAnyRemovedMissingPartAfterRegen`, `GetMissingsHediffs`) are left out. Nothing calls them.
- `Gene_Regenerator`, which calls the regeneration pass once every 2500 ticks, is not part of this model.
- Concurrency does not arise: the game runs these routines on one thread.

## Findings

| source | as written | input that shows it | evidently intended | confidence | as-written member | corrected member |
|---|---|---|---|---|---|---|
| DecompiledRim/Verse/PawnGenerator.cs:1014-1025 | DiscardGeneratedPawn walks the innermost meantime list by index while discarding each visited pawn removes it from that same list, so every second pawn is skipped | a meantime list [5, 6]: pawn 5 is discarded and removed, the index moves to 1, the list now has length 1, and pawn 6 is never discarded | every pawn generated in the meantime is discarded | not executed | PawnSessions.PawnGenerationStack.DiscardAsWritten, PawnSessions.SecondPawnEscapes, PawnSessions.AsWrittenKeepsSecondPawn | PawnSessions.PawnGenerationStack.DiscardGeneratedPawn |
| DecompiledRim/Verse/PawnGenerator.cs:407-432 | for each part the kind requires to be missing, the inner loop over missing-part hediffs returns or breaks at the first hediff, so only that hediff is ever compared | required parts [2] against missing parts [1, 2]: the check rejects the pawn although part 2 is missing; against no missing parts at all the check accepts the pawn | a world pawn qualifies when each required part is missing on a distinct missing-part hediff | not executed | PawnRedress.MissingPartsAsWritten, PawnRedress.AsWrittenRejectsSecondHediff, PawnRedress.AsWrittenAcceptsNoMissingPart | PawnRedress.MissingPartsMatched, PawnRedress.MissingPartsMatchedMeaning |
