/**
 * The inheritance and fertility rules of PregnancyUtility: whether two pawns
 * can ever have a child, the pregnancy chances, the inherited endogenes, the
 * inbred chance, the inherited xenotype or hybrid status and the child's last
 * name. Stats, relations and random draws are inputs.
 */
module Pregnancy {
  import opened Wrappers
  import Mathf
  import Rand

  type PawnId = nat

  datatype Gender = NoGender | Male | Female

  datatype PregnancyApproach = Normal | AvoidPregnancy | TryForBaby

  const PregnancyChanceFactorNormal: real := 1.0
  const PregnancyChanceFactorAvoidPregnancy: real := 0.25
  const PregnancyChanceFactorTryForBaby: real := 4.0
  /** Chance of a gene carried by one parent. */
  const ChanceToInheritOneParent: real := 0.5
  /** Chance of a gene carried by both parents. */
  const ChanceToInheritTwoParents: real := 1.0

  /**
   * What the fertility checks read of a pawn: the fertility stat, whether its
   * life stage is reproductive, Sterile(), and whether it has a visible
   * pregnancy or is lactating.
   */
  datatype Pawn = Pawn(id: PawnId, dead: bool, gender: Gender, fertility: real, reproductive: bool,
                       sterile: bool, pregnant: bool, lactating: bool)

  /** The reasons CanEverProduceChild gives, in the order it checks them. */
  datatype Refusal =
    | PawnIsDead(pawn: PawnId)
    | PawnsHaveSameGender
    | PawnsAreInfertile
    | PawnIsInfertile(pawn: PawnId)
    | PawnsAreTooYoung
    | PawnIsTooYoung(pawn: PawnId)
    | PawnsAreSterile
    | PawnIsSterile(pawn: PawnId)

  datatype Report = Accepted | Refused(reason: Refusal)

  /** The pawn taken as the man: the first when male, else the second. */
  function ManOf(first: Pawn, second: Pawn): Pawn
  {
    if first.gender == Male then first else second
  }

  /** The pawn taken as the woman: the first when female, else the second. */
  function WomanOf(first: Pawn, second: Pawn): Pawn
  {
    if first.gender == Female then first else second
  }

  /** A woman counts as sterile only when she is neither pregnant nor lactating. */
  predicate WomanSterile(w: Pawn)
  {
    w.sterile && !w.pregnant && !w.lactating
  }

  function CanEverProduceChild(first: Pawn, second: Pawn): Report
  {
    if first.dead then Refused(PawnIsDead(first.id))
    else if second.dead then Refused(PawnIsDead(second.id))
    else if first.gender == second.gender then Refused(PawnsHaveSameGender)
    else
      var man := ManOf(first, second);
      var woman := WomanOf(first, second);
      var infertileM, infertileW := man.fertility <= 0.0, woman.fertility <= 0.0;
      if infertileM && infertileW then Refused(PawnsAreInfertile)
      else if infertileM != infertileW then Refused(PawnIsInfertile(if infertileM then man.id else woman.id))
      else
        var youngM, youngW := !man.reproductive, !woman.reproductive;
        if youngM && youngW then Refused(PawnsAreTooYoung)
        else if youngM != youngW then Refused(PawnIsTooYoung(if youngM then man.id else woman.id))
        else
          var sterileM, sterileW := man.sterile, WomanSterile(woman);
          if sterileM && sterileW then Refused(PawnsAreSterile)
          else if sterileM != sterileW then Refused(PawnIsSterile(if sterileM then man.id else woman.id))
          else Accepted
  }

  /** Two pawns are accepted exactly when every check passes. */
  lemma AcceptedIffAllChecksPass(first: Pawn, second: Pawn)
    ensures CanEverProduceChild(first, second) == Accepted <==>
      var man, woman := ManOf(first, second), WomanOf(first, second);
      && !first.dead && !second.dead && first.gender != second.gender
      && man.fertility > 0.0 && woman.fertility > 0.0
      && man.reproductive && woman.reproductive
      && !man.sterile && !WomanSterile(woman)
  {
  }

  /** The checks run in a fixed order: the first failing one is the reason given. */
  lemma FirstFailureIsReported(first: Pawn, second: Pawn)
    ensures first.dead ==> CanEverProduceChild(first, second) == Refused(PawnIsDead(first.id))
    ensures !first.dead && second.dead ==> CanEverProduceChild(first, second) == Refused(PawnIsDead(second.id))
    ensures !first.dead && !second.dead && first.gender == second.gender ==>
              CanEverProduceChild(first, second) == Refused(PawnsHaveSameGender)
    ensures CanEverProduceChild(first, second).Refused? && CanEverProduceChild(first, second).reason.PawnIsSterile? ==>
              ManOf(first, second).fertility > 0.0 && WomanOf(first, second).reproductive
  {
  }

  /** For a man and a woman the answer does not depend on the argument order. */
  lemma AcceptanceIsSymmetric(first: Pawn, second: Pawn)
    requires first.gender != NoGender && second.gender != NoGender
    ensures CanEverProduceChild(first, second) == Accepted <==> CanEverProduceChild(second, first) == Accepted
  {
  }

  /** A pregnant or lactating woman is never the sterile party. */
  lemma PregnantWomanNotSterile(man: Pawn, woman: Pawn)
    requires man.gender == Male && woman.gender == Female && (woman.pregnant || woman.lactating)
    ensures CanEverProduceChild(man, woman) != Refused(PawnsAreSterile)
    ensures CanEverProduceChild(man, woman) != Refused(PawnIsSterile(woman.id)) || man.id == woman.id
  {
  }

  // ---------------------------------------------------------------------
  // Chances

  function PregnancyChanceForWoman(woman: Pawn, childrenAllowed: bool): (r: real)
    ensures woman.sterile || !childrenAllowed ==> r == 0.0
    ensures !woman.sterile && childrenAllowed ==> r == woman.fertility
  {
    if woman.sterile || !childrenAllowed then 0.0 else woman.fertility
  }

  /** An embryo implant doubles the woman's chance, clamped to [0, 1]. */
  function PregnancyChanceImplantEmbryo(surrogate: Pawn, childrenAllowed: bool): (r: real)
    ensures 0.0 <= r <= 1.0
    ensures var c := PregnancyChanceForWoman(surrogate, childrenAllowed);
            0.0 <= c <= 0.5 ==> r == 2.0 * c
  {
    Mathf.Clamp01(PregnancyChanceForWoman(surrogate, childrenAllowed) * 2.0)
  }

  function PregnancyChanceForPartnersWithoutPregnancyApproach(woman: Pawn, man: Option<Pawn>, childrenAllowed: bool): real
  {
    if man.Some? && (man.value.sterile || !childrenAllowed) then 0.0
    else (if man.Some? then man.value.fertility else 1.0) * PregnancyChanceForWoman(woman, childrenAllowed)
  }

  function GetPregnancyChanceFactor(approach: PregnancyApproach): (r: real)
    ensures r > 0.0
  {
    match approach
    case AvoidPregnancy => PregnancyChanceFactorAvoidPregnancy
    case TryForBaby => PregnancyChanceFactorTryForBaby
    case Normal => PregnancyChanceFactorNormal
  }

  function PregnancyChanceForPartners(woman: Pawn, man: Option<Pawn>, approach: PregnancyApproach, childrenAllowed: bool): real
  {
    PregnancyChanceForPartnersWithoutPregnancyApproach(woman, man, childrenAllowed) * GetPregnancyChanceFactor(approach)
  }

  /** The approach only scales the chance: trying for a baby is 4 times normal and 16 times avoiding. */
  lemma ApproachScalesChance(woman: Pawn, man: Option<Pawn>, childrenAllowed: bool)
    ensures PregnancyChanceForPartners(woman, man, TryForBaby, childrenAllowed)
            == 4.0 * PregnancyChanceForPartners(woman, man, Normal, childrenAllowed)
    ensures PregnancyChanceForPartners(woman, man, Normal, childrenAllowed)
            == 4.0 * PregnancyChanceForPartners(woman, man, AvoidPregnancy, childrenAllowed)
  {
  }

  /** A sterile partner, or children being disallowed, rules out pregnancy whatever the approach. */
  lemma SterileMeansNoChance(woman: Pawn, man: Option<Pawn>, approach: PregnancyApproach, childrenAllowed: bool)
    requires woman.sterile || !childrenAllowed || (man.Some? && man.value.sterile)
    ensures PregnancyChanceForPartners(woman, man, approach, childrenAllowed) == 0.0
  {
  }

  /** Without a man the chance is the woman's own, scaled by the approach. */
  lemma NoManUsesWomansChance(woman: Pawn, approach: PregnancyApproach, childrenAllowed: bool)
    ensures PregnancyChanceForPartners(woman, None, approach, childrenAllowed)
            == PregnancyChanceForWoman(woman, childrenAllowed) * GetPregnancyChanceFactor(approach)
  {
  }

  // ---------------------------------------------------------------------
  // Genes and xenotypes

  datatype GeneDef = GeneDef(id: nat, melanin: bool, biostatArc: int, biostatMet: int)

  datatype XenotypeDef = XenotypeDef(id: nat, inheritable: bool)

  /** A pawn's gene tracker: its xenotype, hybrid flag and endogenes. */
  datatype GeneTracker = GeneTracker(xenotype: XenotypeDef, hybrid: bool, endogenes: seq<GeneDef>)

  /** A parent as the inheritance rules see it; no gene tracker is None. */
  datatype Parent = Parent(id: PawnId, lastName: string, genes: Option<GeneTracker>)

  predicate HasGenes(p: Option<Parent>)
  {
    p.Some? && p.value.genes.Some?
  }

  /** Neither a melanin gene nor an archite one is inherited by chance. */
  predicate Heritable(g: GeneDef)
  {
    !g.melanin && g.biostatArc <= 0
  }

  function TryGetInheritedXenotype(mother: Option<Parent>, father: Option<Parent>): (r: Option<XenotypeDef>)
    ensures HasGenes(mother) && HasGenes(father) ==>
              var m, f := mother.value.genes.value.xenotype, father.value.genes.value.xenotype;
              (r.Some? <==> m.inheritable && f.inheritable && m == f) && (r.Some? ==> r.value == m)
    ensures HasGenes(mother) && !HasGenes(father) ==>
              var m := mother.value.genes.value.xenotype;
              r == if m.inheritable then Some(m) else None
    ensures !HasGenes(mother) && HasGenes(father) ==>
              var f := father.value.genes.value.xenotype;
              r == if f.inheritable then Some(f) else None
    ensures !HasGenes(mother) && !HasGenes(father) ==> r.None?
  {
    var hasM, hasF := HasGenes(mother), HasGenes(father);
    if hasM && hasF && mother.value.genes.value.xenotype.inheritable && father.value.genes.value.xenotype.inheritable
       && mother.value.genes.value.xenotype == father.value.genes.value.xenotype
    then Some(mother.value.genes.value.xenotype)
    else if hasM && !hasF && mother.value.genes.value.xenotype.inheritable then Some(mother.value.genes.value.xenotype)
    else if hasF && !hasM && father.value.genes.value.xenotype.inheritable then Some(father.value.genes.value.xenotype)
    else None
  }

  function ShouldByHybrid(mother: Option<Parent>, father: Option<Parent>): (r: bool)
    ensures HasGenes(mother) && HasGenes(father) ==>
              var m, f := mother.value.genes.value, father.value.genes.value;
              r == (m.xenotype.inheritable || m.hybrid || f.xenotype.inheritable || f.hybrid)
    ensures HasGenes(mother) != HasGenes(father) ==>
              r == if HasGenes(mother) then mother.value.genes.value.hybrid else father.value.genes.value.hybrid
    ensures !HasGenes(mother) && !HasGenes(father) ==> !r
  {
    var hasM, hasF := HasGenes(mother), HasGenes(father);
    if hasM && hasF && mother.value.genes.value.hybrid && father.value.genes.value.hybrid then true
    else if hasM && hasF && mother.value.genes.value.xenotype.inheritable && father.value.genes.value.xenotype.inheritable then true
    else if hasM && hasF
       && ((hasM && (mother.value.genes.value.xenotype.inheritable || mother.value.genes.value.hybrid))
           || (hasF && (father.value.genes.value.xenotype.inheritable || father.value.genes.value.hybrid)))
    then true
    else (hasM && !hasF && mother.value.genes.value.hybrid) || (hasF && !hasM && father.value.genes.value.hybrid)
  }

  /** A child that inherits a xenotype from two gene-carrying parents is also counted as a hybrid. */
  lemma InheritedXenotypeImpliesHybridRule(mother: Option<Parent>, father: Option<Parent>)
    requires HasGenes(mother) && HasGenes(father)
    ensures TryGetInheritedXenotype(mother, father).Some? ==> ShouldByHybrid(mother, father)
  {
  }

  /** A pawn relation and the inbred chance it gives a child. */
  datatype RelationDef = RelationDef(id: nat, inbredChanceOnChild: real)

  /**
   * InbredChanceFromParents: the largest inbred chance over the father's
   * relations to the mother, at least 0, with the first relation that
   * reaches it (none when the chance is 0).
   */
  method InbredChanceFromParents(motherPresent: bool, fatherPresent: bool, relations: seq<RelationDef>)
    returns (chance: real, relation: Option<RelationDef>)
    ensures chance >= 0.0
    ensures !(motherPresent && fatherPresent) ==> chance == 0.0 && relation.None?
    ensures motherPresent && fatherPresent ==>
              && (forall i :: 0 <= i < |relations| ==> relations[i].inbredChanceOnChild <= chance)
              && (chance > 0.0 ==> exists i :: 0 <= i < |relations| && relations[i].inbredChanceOnChild == chance)
              && (relation.Some? <==> chance > 0.0)
              && (relation.Some? ==>
                    exists k :: 0 <= k < |relations| && relations[k] == relation.value
                      && relation.value.inbredChanceOnChild == chance
                      && forall j :: 0 <= j < k ==> relations[j].inbredChanceOnChild < chance)
  {
    relation := None;
    if !(motherPresent && fatherPresent) {
      return 0.0, None;
    }
    var num := 0.0;
    ghost var at := 0;
    var i := 0;
    while i < |relations|
      invariant 0 <= i <= |relations|
      invariant num >= 0.0
      invariant forall j :: 0 <= j < i ==> relations[j].inbredChanceOnChild <= num
      invariant relation.Some? <==> num > 0.0
      invariant relation.Some? ==>
                  0 <= at < i && relations[at] == relation.value && relation.value.inbredChanceOnChild == num
                  && forall j :: 0 <= j < at ==> relations[j].inbredChanceOnChild < num
    {
      var r := relations[i];
      if r.inbredChanceOnChild > num {
        num := r.inbredChanceOnChild;
        relation := Some(r);
        at := i;
      }
      num := Mathf.MaxReal(num, r.inbredChanceOnChild);
      i := i + 1;
    }
    chance := num;
  }

  /** A gene and the chance the child inherits it. */
  datatype GeneChance = GeneChance(gene: GeneDef, chance: real)

  function Keys(cs: seq<GeneChance>): (r: seq<GeneDef>)
    ensures |r| == |cs| && forall i :: 0 <= i < |cs| ==> r[i] == cs[i].gene
  {
    seq(|cs|, i requires 0 <= i < |cs| => cs[i].gene)
  }

  /** How often a gene appears in a list. */
  function CountOf(s: seq<GeneDef>, g: GeneDef): nat
  {
    if |s| == 0 then 0 else CountOf(s[..|s| - 1], g) + (if s[|s| - 1] == g then 1 else 0)
  }

  predicate Distinct(s: seq<GeneDef>)
  {
    forall i, j :: 0 <= i < j < |s| ==> s[i] != s[j]
  }

  /** The heritable endogenes of a parent, in order. */
  function HeritableEndogenes(p: Option<Parent>): seq<GeneDef>
  {
    if HasGenes(p) then Filter(p.value.genes.value.endogenes) else []
  }

  function Filter(s: seq<GeneDef>): (r: seq<GeneDef>)
    ensures forall g :: g in r <==> g in s && Heritable(g)
    ensures forall g :: Heritable(g) ==> CountOf(r, g) == CountOf(s, g)
  {
    if |s| == 0 then []
    else
      var init := Filter(s[..|s| - 1]);
      assert forall g :: g in s <==> g in s[..|s| - 1] || g == s[|s| - 1];
      if Heritable(s[|s| - 1]) then init + [s[|s| - 1]] else init
  }

  /**
   * The chance of a gene in the chance table: 1 when the father carries it
   * and the mother does too, 0.5 when only one parent does. A mother's gene
   * she carries twice also reaches 1, because the second copy finds the entry
   * the first one made.
   */
  function ExpectedChance(fatherGenes: seq<GeneDef>, motherGenes: seq<GeneDef>, g: GeneDef): real
  {
    if g in fatherGenes then (if g in motherGenes then ChanceToInheritTwoParents else ChanceToInheritOneParent)
    else if CountOf(motherGenes, g) >= 2 then ChanceToInheritTwoParents
    else ChanceToInheritOneParent
  }

  lemma CountOfIn(s: seq<GeneDef>, g: GeneDef)
    ensures g in s <==> CountOf(s, g) > 0
  {
    if |s| > 0 {
      CountOfIn(s[..|s| - 1], g);
      assert s == s[..|s| - 1] + [s[|s| - 1]];
    }
  }

  /** The index of a gene in the table, if it has an entry. */
  function Find(cs: seq<GeneChance>, g: GeneDef): (r: Option<nat>)
    ensures r.Some? ==> r.value < |cs| && cs[r.value].gene == g
    ensures r.None? ==> g !in Keys(cs)
  {
    if |cs| == 0 then None
    else if cs[|cs| - 1].gene == g then Some(|cs| - 1)
    else
      var f := Find(cs[..|cs| - 1], g);
      assert Keys(cs) == Keys(cs[..|cs| - 1]) + [cs[|cs| - 1].gene];
      f
  }

  /** The chance table has some entry exactly for the genes `keys` hold, each with the expected chance. */
  ghost predicate TableFor(cs: seq<GeneChance>, fatherGenes: seq<GeneDef>, motherGenes: seq<GeneDef>)
  {
    && Distinct(Keys(cs))
    && (forall g :: g in Keys(cs) <==> g in fatherGenes || g in motherGenes)
    && (forall i :: 0 <= i < |cs| ==> cs[i].chance == ExpectedChance(fatherGenes, motherGenes, cs[i].gene))
  }

  lemma KeysAppend(cs: seq<GeneChance>, e: GeneChance)
    ensures Keys(cs + [e]) == Keys(cs) + [e.gene]
  {
  }

  lemma KeysUpdate(cs: seq<GeneChance>, k: nat, c: real)
    requires k < |cs|
    ensures Keys(cs[k := GeneChance(cs[k].gene, c)]) == Keys(cs)
  {
  }

  /**
   * The first loop that fills the chance table: every heritable endogene of
   * the father at 0.5 (SetOrAdd keeps an existing entry where it is).
   */
  method AddFatherGenes(fg: seq<GeneDef>) returns (cs: seq<GeneChance>)
    ensures Distinct(Keys(cs))
    ensures forall g :: g in Keys(cs) <==> g in fg && Heritable(g)
    ensures forall k :: 0 <= k < |cs| ==> cs[k].chance == ChanceToInheritOneParent
  {
    cs := [];
    var i := 0;
    while i < |fg|
      invariant 0 <= i <= |fg|
      invariant Distinct(Keys(cs))
      invariant forall g :: g in Keys(cs) <==> g in fg[..i] && Heritable(g)
      invariant forall k :: 0 <= k < |cs| ==> cs[k].chance == ChanceToInheritOneParent
    {
      assert fg[..i + 1] == fg[..i] + [fg[i]];
      var g := fg[i];
      if Heritable(g) {
        var f := Find(cs, g);
        if f.Some? {
          KeysUpdate(cs, f.value, ChanceToInheritOneParent);
          cs := cs[f.value := GeneChance(g, ChanceToInheritOneParent)];
        } else {
          KeysAppend(cs, GeneChance(g, ChanceToInheritOneParent));
          cs := cs + [GeneChance(g, ChanceToInheritOneParent)];
        }
      }
      i := i + 1;
    }
    assert fg[..|fg|] == fg;
  }

  /**
   * The second loop: each heritable endogene of the mother raises an existing
   * entry to 1 or is added at 0.5.
   */
  method AddMotherGenes(cs0: seq<GeneChance>, F: seq<GeneDef>, mg: seq<GeneDef>) returns (cs: seq<GeneChance>)
    requires Distinct(Keys(cs0))
    requires forall g :: g in Keys(cs0) <==> g in F
    requires forall k :: 0 <= k < |cs0| ==> cs0[k].chance == ChanceToInheritOneParent
    requires forall g :: g in F ==> Heritable(g)
    ensures TableFor(cs, F, Filter(mg))
  {
    cs := cs0;
    var j := 0;
    assert mg[..0] == [];
    while j < |mg|
      invariant 0 <= j <= |mg|
      invariant TableFor(cs, F, Filter(mg[..j]))
    {
      cs := AddMotherGene(cs, F, mg, j);
      j := j + 1;
    }
    assert mg[..|mg|] == mg;
  }

  /** One iteration of the mother's loop: the table stays right for the genes seen so far. */
  method AddMotherGene(cs0: seq<GeneChance>, F: seq<GeneDef>, mg: seq<GeneDef>, j: nat) returns (cs: seq<GeneChance>)
    requires j < |mg| && TableFor(cs0, F, Filter(mg[..j]))
    ensures TableFor(cs, F, Filter(mg[..j + 1]))
  {
    var g := mg[j];
    MotherStep(F, mg, j);
    cs := cs0;
    if Heritable(g) {
      var f := Find(cs, g);
      if f.Some? {
        KeysUpdate(cs, f.value, ChanceToInheritTwoParents);
        cs := cs[f.value := GeneChance(g, ChanceToInheritTwoParents)];
      } else {
        KeysAppend(cs, GeneChance(g, ChanceToInheritOneParent));
        cs := cs + [GeneChance(g, ChanceToInheritOneParent)];
      }
    }
  }

  /** The two loops that fill the chance table, father first; the table keeps insertion order. */
  method GeneChances(father: Option<Parent>, mother: Option<Parent>) returns (cs: seq<GeneChance>)
    ensures TableFor(cs, HeritableEndogenes(father), HeritableEndogenes(mother))
  {
    var fg := if HasGenes(father) then father.value.genes.value.endogenes else [];
    var mg := if HasGenes(mother) then mother.value.genes.value.endogenes else [];
    var fromFather := AddFatherGenes(fg);
    cs := AddMotherGenes(fromFather, HeritableEndogenes(father), mg);
  }

  /** One more of the mother's genes: how the expected chances change. */
  lemma MotherStep(F: seq<GeneDef>, mg: seq<GeneDef>, j: nat)
    requires j < |mg|
    ensures var before, after := Filter(mg[..j]), Filter(mg[..j + 1]);
      var g := mg[j];
      && (forall h :: h in after <==> h in before || (h == g && Heritable(g)))
      && (forall h :: h != g || !Heritable(g) ==> ExpectedChance(F, after, h) == ExpectedChance(F, before, h))
      && (Heritable(g) && (g in F || g in before) ==> ExpectedChance(F, after, g) == ChanceToInheritTwoParents)
      && (Heritable(g) && g !in F && g !in before ==> ExpectedChance(F, after, g) == ChanceToInheritOneParent)
  {
    var before, after := Filter(mg[..j]), Filter(mg[..j + 1]);
    var g := mg[j];
    assert mg[..j + 1] == mg[..j] + [mg[j]];
    assert mg[..j + 1][..j] == mg[..j];
    forall h
      ensures CountOf(after, h) == CountOf(before, h) + (if h == g && Heritable(g) then 1 else 0)
    {
      if Heritable(g) {
        assert after == before + [g];
        assert after[..|after| - 1] == before;
      }
    }
    forall h
      ensures h in after <==> h in before || (h == g && Heritable(g))
    {
      CountOfIn(after, h);
      CountOfIn(before, h);
    }
    if Heritable(g) && g in before {
      CountOfIn(before, g);
    }
    if Heritable(g) && g !in before {
      CountOfIn(before, g);
    }
  }

  /** The sum of the metabolism stats of a gene list. */
  function MetSum(s: seq<GeneDef>): int
  {
    if |s| == 0 then 0 else MetSum(s[..|s| - 1]) + s[|s| - 1].biostatMet
  }

  function Abs(x: int): nat { if x < 0 then -x else x }

  /** The metabolism ranges the child can get, with their weights. */
  const MetabolismRangeChances: seq<(int, real)> := [(1, 0.7), (2, 0.2), (3, 0.1)]

  /** Each prefix of the list added so far stays within the metabolism range. */
  ghost predicate MetabolismWithin(s: seq<GeneDef>, metMax: int)
  {
    forall k :: 0 < k <= |s| ==> Abs(MetSum(s[..k])) <= metMax
  }

  /**
   * GetInheritedGenes. `draws` stands for the successive Rand.Value draws:
   * the first picks the metabolism range, one more is taken for each gene
   * that reaches the chance roll, and the next one is the inbred roll.
   * `skinGene` is the skin-colour gene picked from the parents, if any, and
   * `sameXenotype` is GeneUtility.SameHeritableXenotype. `added` is how many
   * genes came from the chance table; the rest are the skin gene and Inbred.
   */
  method GetInheritedGenes(father: Option<Parent>, mother: Option<Parent>, relations: seq<RelationDef>,
                           sameXenotype: bool, skinGene: Option<GeneDef>, inbred: GeneDef, draws: nat -> real)
    returns (genes: seq<GeneDef>, metMax: int, added: nat)
    requires forall k :: Rand.IsUnit(draws(k))
    requires skinGene.Some? ==> skinGene.value.melanin
    ensures Distinct(genes)
    ensures metMax in {1, 2, 3}
    ensures added <= |genes| <= added + 2
    ensures forall i :: 0 <= i < added ==>
              genes[i] in HeritableEndogenes(father) || genes[i] in HeritableEndogenes(mother)
    ensures !sameXenotype ==> MetabolismWithin(genes[..added], metMax)
    ensures forall i :: added <= i < |genes| ==> Some(genes[i]) == skinGene || genes[i] == inbred
    ensures CountOf(genes, inbred) <= 1
  {
    var cs := GeneChances(father, mother);
    var weights := [MetabolismRangeChances[0].1, MetabolismRangeChances[1].1, MetabolismRangeChances[2].1];
    Rand.AllPositiveSum(weights);
    Rand.WeightedPickSound(weights, draws(0));
    var pick := Rand.WeightedPick(weights, draws(0));
    metMax := MetabolismRangeChances[pick.value].0;
    var chanceGenes, next := AddGenesWithChance(cs, sameXenotype, metMax, draws);
    ChanceGenesFacts(cs, chanceGenes, HeritableEndogenes(father), HeritableEndogenes(mother));
    added := |chanceGenes|;
    var inbredChance, _ := InbredChanceFromParents(mother.Some?, father.Some?, relations);
    genes := AppendSkinAndInbred(chanceGenes, skinGene, inbred, Rand.Chance(inbredChance, draws(next)));
    CountOfAtMostOne(genes, inbred);
  }

  /**
   * The end of GetInheritedGenes: the skin gene is appended when there is
   * one, then Inbred when it is not yet listed and its roll succeeds.
   */
  method AppendSkinAndInbred(chanceGenes: seq<GeneDef>, skinGene: Option<GeneDef>, inbred: GeneDef, inbredRolled: bool)
    returns (genes: seq<GeneDef>)
    requires Distinct(chanceGenes)
    requires skinGene.Some? ==> skinGene.value !in chanceGenes
    ensures Distinct(genes)
    ensures |chanceGenes| <= |genes| <= |chanceGenes| + 2 && genes[..|chanceGenes|] == chanceGenes
    ensures forall i :: |chanceGenes| <= i < |genes| ==> Some(genes[i]) == skinGene || genes[i] == inbred
    ensures skinGene.Some? ==> skinGene.value in genes
    ensures inbredRolled ==> inbred in genes
    ensures !inbredRolled && inbred !in chanceGenes && Some(inbred) != skinGene ==> inbred !in genes
  {
    var withSkin := chanceGenes;
    if skinGene.Some? {
      AppendFresh(chanceGenes, skinGene.value);
      withSkin := chanceGenes + [skinGene.value];
    }
    genes := withSkin;
    if inbred !in withSkin && inbredRolled {
      AppendFresh(withSkin, inbred);
      genes := withSkin + [inbred];
      assert genes[..|chanceGenes|] == withSkin[..|chanceGenes|];
    }
  }

  /** The genes drawn from the table come from the parents and are heritable. */
  lemma ChanceGenesFacts(cs: seq<GeneChance>, genes: seq<GeneDef>, F: seq<GeneDef>, M: seq<GeneDef>)
    requires TableFor(cs, F, M)
    requires forall k :: 0 <= k < |genes| ==> genes[k] in Keys(cs)
    ensures forall k :: 0 <= k < |genes| ==> genes[k] in F || genes[k] in M
  {
  }

  /** Appending a gene not yet listed keeps the list free of repeats. */
  lemma AppendFresh(base: seq<GeneDef>, x: GeneDef)
    requires Distinct(base) && x !in base
    ensures Distinct(base + [x]) && (base + [x])[..|base|] == base
  {
  }

  /**
   * The loop over the chance table: a gene is added unless it is already
   * there, its chance roll fails, or (for parents of different xenotypes) it
   * would take the metabolism sum outside [-metMax, metMax]. `next` is the
   * index of the first draw not used.
   */
  method AddGenesWithChance(cs: seq<GeneChance>, sameXenotype: bool, metMax: int, draws: nat -> real)
    returns (genes: seq<GeneDef>, next: nat)
    requires forall k :: Rand.IsUnit(draws(k))
    ensures Distinct(genes)
    ensures forall k :: 0 <= k < |genes| ==> genes[k] in Keys(cs)
    ensures !sameXenotype ==> MetabolismWithin(genes, metMax)
  {
    next := 1;
    genes := [];
    var i := 0;
    while i < |cs|
      invariant 0 <= i <= |cs|
      invariant Distinct(genes)
      invariant forall k :: 0 <= k < |genes| ==> genes[k] in Keys(cs)
      invariant !sameXenotype ==> MetabolismWithin(genes, metMax)
    {
      var key := cs[i].gene;
      var canAdd := true;
      if key in genes {
        canAdd := false;
      } else {
        var roll := draws(next);
        next := next + 1;
        if !Rand.Chance(cs[i].chance, roll) {
          canAdd := false;
        } else if !sameXenotype && Abs(MetSum(genes) + key.biostatMet) > metMax {
          canAdd := false;
        }
      }
      if canAdd {
        if !sameXenotype {
          AppendWithin(genes, key, metMax);
        }
        genes := genes + [key];
      }
      assert Keys(cs)[i] == key;
      i := i + 1;
    }
  }

  lemma AppendWithin(genes: seq<GeneDef>, key: GeneDef, metMax: int)
    requires MetabolismWithin(genes, metMax) && Abs(MetSum(genes) + key.biostatMet) <= metMax
    ensures MetabolismWithin(genes + [key], metMax)
  {
    var s := genes + [key];
    assert s[..|s|] == s && s[..|s| - 1] == genes;
    assert forall k :: 0 < k <= |genes| ==> s[..k] == genes[..k];
  }

  /** In a list without repeats every gene occurs at most once. */
  lemma {:induction false} CountOfAtMostOne(s: seq<GeneDef>, g: GeneDef)
    requires Distinct(s)
    ensures CountOf(s, g) <= 1
    decreases |s|
  {
    if |s| > 0 {
      var init := s[..|s| - 1];
      CountOfAtMostOne(init, g);
      if s[|s| - 1] == g {
        CountOfIn(init, g);
      }
    }
  }

  // ---------------------------------------------------------------------
  // Last name

  /** The parents whose last names the child may take, in the order they are listed. */
  function LastNameCandidates(geneticMother: Option<Parent>, birthingMother: Option<Parent>, father: Option<Parent>): seq<string>
  {
    (if geneticMother.Some? then [geneticMother.value.lastName] else [])
    + (if father.Some? then [father.value.lastName] else [])
    + (if birthingMother.Some? && birthingMother != geneticMother && birthingMother != father
       then [birthingMother.value.lastName] else [])
  }

  /** RandomLastName: the candidates are collected in a list and one is picked by `draw`. */
  method RandomLastName(geneticMother: Option<Parent>, birthingMother: Option<Parent>, father: Option<Parent>, draw: nat)
    returns (name: Option<string>)
    ensures name.None? <==> geneticMother.None? && birthingMother.None? && father.None?
    ensures name.Some? ==> name.value in LastNameCandidates(geneticMother, birthingMother, father)
  {
    var names: seq<string> := [];
    if geneticMother.Some? {
      names := names + [geneticMother.value.lastName];
    }
    if father.Some? {
      names := names + [father.value.lastName];
    }
    if birthingMother.Some? && birthingMother != geneticMother && birthingMother != father {
      names := names + [birthingMother.value.lastName];
    }
    assert names == LastNameCandidates(geneticMother, birthingMother, father);
    if |names| == 0 {
      return None;
    }
    name := Rand.RandomElement(names, draw);
  }

  /** A birthing mother who is also the genetic mother adds no second entry for herself. */
  lemma BirthingMotherCountedOnce(mother: Parent, father: Option<Parent>)
    ensures |LastNameCandidates(Some(mother), Some(mother), father)| == if father.Some? then 2 else 1
  {
  }
}
