/**
 * The xenotype of a generated pawn. XenotypesAvailableFor fills a weight
 * table from the faction's, the primary ideo's memes' and the kind's
 * xenotype sets, summing repeated entries and skipping Baseliner, and then
 * gives Baseliner whatever weight remains below 1.
 * GetXenotypeForGeneratedPawn picks from it after the request's overrides.
 *
 * The dictionary is an association list in insertion order, the order its
 * entries are enumerated in by the weighted pick.
 */
module PawnXenotypes {
  import opened Wrappers
  import Rand

  type XenotypeId = nat

  datatype XenotypeChance = XenotypeChance(xenotype: XenotypeId, chance: real)

  type Table = seq<(XenotypeId, real)>

  function Keys(t: Table): (r: seq<XenotypeId>)
    ensures |r| == |t| && forall i :: 0 <= i < |t| ==> r[i] == t[i].0
  {
    if |t| == 0 then [] else Keys(t[..|t| - 1]) + [t[|t| - 1].0]
  }

  predicate DistinctKeys(t: Table)
  {
    forall i, j :: 0 <= i < j < |t| ==> t[i].0 != t[j].0
  }

  /** The dictionary lookup. */
  function Lookup(t: Table, k: XenotypeId): (r: Option<real>)
    ensures r.None? <==> k !in Keys(t)
  {
    if |t| == 0 then None
    else if t[|t| - 1].0 == k then Some(t[|t| - 1].1)
    else Lookup(t[..|t| - 1], k)
  }

  function Total(t: Table): real
  {
    if |t| == 0 then 0.0 else Total(t[..|t| - 1]) + t[|t| - 1].1
  }

  function IndexOf(t: Table, k: XenotypeId): (r: nat)
    requires k in Keys(t)
    ensures r < |t| && t[r].0 == k
  {
    if t[|t| - 1].0 == k then |t| - 1 else IndexOf(t[..|t| - 1], k)
  }

  /** The local AddOrAdjust: Baseliner entries are skipped; a present key gains the chance; a new key is appended. */
  function AddOrAdjust(t: Table, baseliner: XenotypeId, e: XenotypeChance): Table
  {
    if e.xenotype == baseliner then t
    else if e.xenotype in Keys(t) then
      var i := IndexOf(t, e.xenotype);
      t[i := (e.xenotype, t[i].1 + e.chance)]
    else t + [(e.xenotype, e.chance)]
  }

  /** The table after adding the entries in order. */
  function Accumulate(t: Table, baseliner: XenotypeId, es: seq<XenotypeChance>): Table
  {
    if |es| == 0 then t else AddOrAdjust(Accumulate(t, baseliner, es[..|es| - 1]), baseliner, es[|es| - 1])
  }

  /** The summed chance of the entries for a xenotype. */
  function ChanceSum(es: seq<XenotypeChance>, k: XenotypeId): real
  {
    if |es| == 0 then 0.0
    else ChanceSum(es[..|es| - 1], k) + (if es[|es| - 1].xenotype == k then es[|es| - 1].chance else 0.0)
  }

  /** The summed chance of the entries that are not Baseliner. */
  function NonBaselinerSum(es: seq<XenotypeChance>, baseliner: XenotypeId): real
  {
    if |es| == 0 then 0.0
    else NonBaselinerSum(es[..|es| - 1], baseliner) + (if es[|es| - 1].xenotype != baseliner then es[|es| - 1].chance else 0.0)
  }

  predicate Mentions(es: seq<XenotypeChance>, k: XenotypeId)
  {
    exists i :: 0 <= i < |es| && es[i].xenotype == k
  }

  lemma {:induction false} LookupAt(t: Table, i: nat)
    requires DistinctKeys(t) && i < |t|
    ensures Lookup(t, t[i].0) == Some(t[i].1)
  {
    if i < |t| - 1 {
      assert t[..|t| - 1][i] == t[i];
      LookupAt(t[..|t| - 1], i);
    }
  }

  lemma {:induction false} TotalUpdate(t: Table, i: nat, v: real)
    requires i < |t|
    ensures Total(t[i := (t[i].0, v)]) == Total(t) - t[i].1 + v
  {
    var u := t[i := (t[i].0, v)];
    if i < |t| - 1 {
      assert u[..|u| - 1] == t[..|t| - 1][i := (t[i].0, v)];
      TotalUpdate(t[..|t| - 1], i, v);
    } else {
      assert u[..|u| - 1] == t[..|t| - 1];
    }
  }

  lemma {:induction false} LookupUpdate(t: Table, i: nat, v: real, k: XenotypeId)
    requires i < |t| && k != t[i].0
    ensures Lookup(t[i := (t[i].0, v)], k) == Lookup(t, k)
  {
    var u := t[i := (t[i].0, v)];
    if i < |t| - 1 {
      assert u[..|u| - 1] == t[..|t| - 1][i := (t[i].0, v)];
      LookupUpdate(t[..|t| - 1], i, v, k);
    } else {
      assert u[..|u| - 1] == t[..|t| - 1];
    }
  }

  lemma KeysUpdate(t: Table, i: nat, v: real)
    requires i < |t|
    ensures Keys(t[i := (t[i].0, v)]) == Keys(t)
  {
  }

  /** Adjusting a present key adds the chance to its weight and to the total, and to nothing else. */
  lemma {:induction false} AdjustEffect(t: Table, baseliner: XenotypeId, e: XenotypeChance)
    requires DistinctKeys(t) && baseliner !in Keys(t)
    requires e.xenotype != baseliner && e.xenotype in Keys(t)
    ensures DistinctKeys(AddOrAdjust(t, baseliner, e)) && baseliner !in Keys(AddOrAdjust(t, baseliner, e))
    ensures Total(AddOrAdjust(t, baseliner, e)) == Total(t) + e.chance
    ensures forall k :: k != e.xenotype ==> Lookup(AddOrAdjust(t, baseliner, e), k) == Lookup(t, k)
    ensures Lookup(AddOrAdjust(t, baseliner, e), e.xenotype) == Some(Lookup(t, e.xenotype).GetOr(0.0) + e.chance)
  {
    var i := IndexOf(t, e.xenotype);
    var v := t[i].1 + e.chance;
    var r := t[i := (e.xenotype, v)];
    assert r == AddOrAdjust(t, baseliner, e);
    LookupAt(t, i);
    TotalUpdate(t, i, v);
    KeysUpdate(t, i, v);
    forall k | k != e.xenotype ensures Lookup(r, k) == Lookup(t, k) {
      LookupUpdate(t, i, v, k);
    }
    LookupAt(r, i);
  }

  /** Appending a new key gives it the chance and adds the chance to the total. */
  lemma AppendEffect(t: Table, baseliner: XenotypeId, e: XenotypeChance)
    requires DistinctKeys(t) && baseliner !in Keys(t)
    requires e.xenotype != baseliner && e.xenotype !in Keys(t)
    ensures DistinctKeys(AddOrAdjust(t, baseliner, e)) && baseliner !in Keys(AddOrAdjust(t, baseliner, e))
    ensures Total(AddOrAdjust(t, baseliner, e)) == Total(t) + e.chance
    ensures forall k :: k != e.xenotype ==> Lookup(AddOrAdjust(t, baseliner, e), k) == Lookup(t, k)
    ensures Lookup(AddOrAdjust(t, baseliner, e), e.xenotype) == Some(Lookup(t, e.xenotype).GetOr(0.0) + e.chance)
  {
    var r := t + [(e.xenotype, e.chance)];
    assert r[..|r| - 1] == t;
    assert Keys(r) == Keys(t) + [e.xenotype];
  }

  /** One AddOrAdjust keeps the keys distinct, keeps Baseliner out, adds the chance to its key's weight and to the total. */
  lemma AddOrAdjustEffect(t: Table, baseliner: XenotypeId, e: XenotypeChance)
    requires DistinctKeys(t) && baseliner !in Keys(t)
    ensures DistinctKeys(AddOrAdjust(t, baseliner, e)) && baseliner !in Keys(AddOrAdjust(t, baseliner, e))
    ensures Total(AddOrAdjust(t, baseliner, e)) == Total(t) + (if e.xenotype != baseliner then e.chance else 0.0)
    ensures forall k :: k != e.xenotype ==> Lookup(AddOrAdjust(t, baseliner, e), k) == Lookup(t, k)
    ensures e.xenotype != baseliner ==> Lookup(AddOrAdjust(t, baseliner, e), e.xenotype) == Some(Lookup(t, e.xenotype).GetOr(0.0) + e.chance)
  {
    if e.xenotype == baseliner {
    } else if e.xenotype in Keys(t) {
      AdjustEffect(t, baseliner, e);
    } else {
      AppendEffect(t, baseliner, e);
    }
  }

  /**
   * The accumulated table from empty: distinct keys, no Baseliner, each
   * mentioned xenotype weighted by the sum of its chances, every other one
   * absent, and the total equal to the sum of the non-Baseliner chances.
   */
  lemma AccumulateMeaning(baseliner: XenotypeId, es: seq<XenotypeChance>)
    ensures var t := Accumulate([], baseliner, es);
      DistinctKeys(t) && baseliner !in Keys(t)
      && Total(t) == NonBaselinerSum(es, baseliner)
      && (forall k :: k != baseliner && Mentions(es, k) ==> Lookup(t, k) == Some(ChanceSum(es, k)))
      && (forall k :: !Mentions(es, k) ==> Lookup(t, k).None?)
  {
    AccumulateShape(baseliner, es);
    AccumulateWeights(baseliner, es);
  }

  /** The accumulated table has distinct keys, no Baseliner, and the non-Baseliner chances as its total. */
  lemma {:induction false} AccumulateShape(baseliner: XenotypeId, es: seq<XenotypeChance>)
    ensures var t := Accumulate([], baseliner, es);
      DistinctKeys(t) && baseliner !in Keys(t) && Total(t) == NonBaselinerSum(es, baseliner)
  {
    if |es| > 0 {
      var init := es[..|es| - 1];
      AccumulateShape(baseliner, init);
      AddOrAdjustEffect(Accumulate([], baseliner, init), baseliner, es[|es| - 1]);
    }
  }

  /** Each mentioned xenotype other than Baseliner weighs the sum of its chances; the others are absent. */
  lemma {:induction false} AccumulateWeights(baseliner: XenotypeId, es: seq<XenotypeChance>)
    ensures var t := Accumulate([], baseliner, es);
      && (forall k :: k != baseliner && Mentions(es, k) ==> Lookup(t, k) == Some(ChanceSum(es, k)))
      && (forall k :: !Mentions(es, k) ==> Lookup(t, k).None?)
  {
    if |es| > 0 {
      var init := es[..|es| - 1];
      AccumulateWeights(baseliner, init);
      AccumulateShape(baseliner, init);
      forall k
        ensures k != baseliner && Mentions(es, k) ==> Lookup(Accumulate([], baseliner, es), k) == Some(ChanceSum(es, k))
        ensures !Mentions(es, k) ==> Lookup(Accumulate([], baseliner, es), k).None?
      {
        WeightStep(baseliner, es, k);
      }
    }
  }

  /** The step of AccumulateWeights for one xenotype, from its weight before the last entry. */
  lemma WeightStep(baseliner: XenotypeId, es: seq<XenotypeChance>, k: XenotypeId)
    requires |es| > 0
    requires var t0 := Accumulate([], baseliner, es[..|es| - 1]);
      && DistinctKeys(t0) && baseliner !in Keys(t0)
      && (k != baseliner && Mentions(es[..|es| - 1], k) ==> Lookup(t0, k) == Some(ChanceSum(es[..|es| - 1], k)))
      && (!Mentions(es[..|es| - 1], k) ==> Lookup(t0, k).None?)
    ensures k != baseliner && Mentions(es, k) ==> Lookup(Accumulate([], baseliner, es), k) == Some(ChanceSum(es, k))
    ensures !Mentions(es, k) ==> Lookup(Accumulate([], baseliner, es), k).None?
  {
    var init := es[..|es| - 1];
    var e := es[|es| - 1];
    var t0 := Accumulate([], baseliner, init);
    var t := AddOrAdjust(t0, baseliner, e);
    assert Accumulate([], baseliner, es) == t;
    assert ChanceSum(es, k) == ChanceSum(init, k) + (if e.xenotype == k then e.chance else 0.0);
    AddOrAdjustEffect(t0, baseliner, e);
    MentionsSplit(es, k);
    if k != e.xenotype {
      assert Lookup(t, k) == Lookup(t0, k);
    } else if k != baseliner {
      assert Lookup(t, k) == Some(Lookup(t0, k).GetOr(0.0) + e.chance);
      if !Mentions(init, k) {
        ChanceSumAbsent(init, k);
      }
    }
  }

  /** A xenotype is mentioned exactly when the last entry or an earlier one names it. */
  lemma MentionsSplit(es: seq<XenotypeChance>, k: XenotypeId)
    requires |es| > 0
    ensures Mentions(es, k) <==> Mentions(es[..|es| - 1], k) || es[|es| - 1].xenotype == k
  {
    var init := es[..|es| - 1];
    if Mentions(es, k) && es[|es| - 1].xenotype != k {
      var i :| 0 <= i < |es| && es[i].xenotype == k;
      assert init[i] == es[i];
    }
    if Mentions(init, k) {
      var i :| 0 <= i < |init| && init[i].xenotype == k;
      assert es[i] == init[i];
    }
  }

  lemma {:induction false} ChanceSumAbsent(es: seq<XenotypeChance>, k: XenotypeId)
    requires !Mentions(es, k)
    ensures ChanceSum(es, k) == 0.0
  {
    if |es| > 0 {
      var init := es[..|es| - 1];
      forall i | 0 <= i < |init| ensures init[i].xenotype != k {
        assert init[i] == es[i];
      }
      ChanceSumAbsent(init, k);
    }
  }

  lemma {:induction false} AccumulateAppend(t: Table, baseliner: XenotypeId, a: seq<XenotypeChance>, b: seq<XenotypeChance>)
    ensures Accumulate(t, baseliner, a + b) == Accumulate(Accumulate(t, baseliner, a), baseliner, b)
    decreases |b|
  {
    if |b| == 0 {
      assert a + b == a;
    } else {
      assert (a + b)[..|a + b| - 1] == a + b[..|b| - 1];
      AccumulateAppend(t, baseliner, a, b[..|b| - 1]);
    }
  }

  /** Where the entries come from. */
  datatype XenotypeSources = XenotypeSources(
    useFactionXenotypes: bool,
    factionSet: Option<seq<XenotypeChance>>,
    memeSets: seq<Option<seq<XenotypeChance>>>,
    kindSet: Option<seq<XenotypeChance>>,
    baseliner: XenotypeId)

  function Flatten(sets: seq<Option<seq<XenotypeChance>>>): seq<XenotypeChance>
  {
    if |sets| == 0 then []
    else Flatten(sets[..|sets| - 1]) + (if sets[|sets| - 1].Some? then sets[|sets| - 1].value else [])
  }

  /** All entries in the order they are added. */
  function Entries(src: XenotypeSources): seq<XenotypeChance>
  {
    (if src.useFactionXenotypes && src.factionSet.Some? then src.factionSet.value else [])
    + Flatten(src.memeSets)
    + (if src.kindSet.Some? then src.kindSet.value else [])
  }

  /** The table XenotypesAvailableFor returns. */
  function AvailableTable(src: XenotypeSources): Table
  {
    var t := Accumulate([], src.baseliner, Entries(src));
    var rest := 1.0 - Total(t);
    if rest > 0.0 then t + [(src.baseliner, rest)] else t
  }

  /**
   * The promises of the table: no repeated key; every mentioned xenotype
   * other than Baseliner weighted by its summed chance; Baseliner present
   * exactly when the others sum below 1, then topping the total up to 1.
   */
  lemma AvailableTableMeaning(src: XenotypeSources)
    ensures var t := AvailableTable(src);
      DistinctKeys(t)
      && (forall k :: k != src.baseliner && Mentions(Entries(src), k) ==> Lookup(t, k) == Some(ChanceSum(Entries(src), k)))
      && (forall k :: k != src.baseliner && !Mentions(Entries(src), k) ==> Lookup(t, k).None?)
      && (Lookup(t, src.baseliner).Some? <==> NonBaselinerSum(Entries(src), src.baseliner) < 1.0)
      && (Lookup(t, src.baseliner).Some? ==> Total(t) == 1.0)
      && (Lookup(t, src.baseliner).None? ==> Total(t) >= 1.0)
  {
    var es := Entries(src);
    var t := Accumulate([], src.baseliner, es);
    AccumulateMeaning(src.baseliner, es);
    var rest := 1.0 - Total(t);
    if rest > 0.0 {
      var r := t + [(src.baseliner, rest)];
      assert r[..|r| - 1] == t;
      assert Keys(r) == Keys(t) + [src.baseliner];
    }
  }

  /** AddOrAdjust over one xenotype set. */
  method AddAll(t: Table, baseliner: XenotypeId, es: seq<XenotypeChance>) returns (r: Table)
    ensures r == Accumulate(t, baseliner, es)
  {
    r := t;
    for i := 0 to |es|
      invariant r == Accumulate(t, baseliner, es[..i])
    {
      assert es[..i + 1][..i] == es[..i];
      r := AddOrAdjust(r, baseliner, es[i]);
    }
    assert es[..|es|] == es;
  }

  /** The loop over the primary ideo's memes, adding each meme's set. */
  method AddMemeSets(t: Table, baseliner: XenotypeId, sets: seq<Option<seq<XenotypeChance>>>) returns (r: Table)
    ensures r == Accumulate(t, baseliner, Flatten(sets))
  {
    r := t;
    for j := 0 to |sets|
      invariant r == Accumulate(t, baseliner, Flatten(sets[..j]))
    {
      assert sets[..j + 1][..j] == sets[..j];
      var setJ := if sets[j].Some? then sets[j].value else [];
      AccumulateAppend(t, baseliner, Flatten(sets[..j]), setJ);
      if sets[j].Some? {
        r := AddAll(r, baseliner, sets[j].value);
      }
    }
    assert sets[..|sets|] == sets;
  }

  /** XenotypesAvailableFor, with the scratch dictionary as a local. */
  method XenotypesAvailableFor(src: XenotypeSources) returns (t: Table)
    ensures t == AvailableTable(src)
  {
    var bl := src.baseliner;
    var factionPart := if src.useFactionXenotypes && src.factionSet.Some? then src.factionSet.value else [];
    var kindPart := if src.kindSet.Some? then src.kindSet.value else [];
    t := [];
    if src.useFactionXenotypes && src.factionSet.Some? {
      t := AddAll(t, bl, src.factionSet.value);
    }
    t := AddMemeSets(t, bl, src.memeSets);
    AccumulateAppend([], bl, factionPart, Flatten(src.memeSets));
    if src.kindSet.Some? {
      t := AddAll(t, bl, src.kindSet.value);
    }
    AccumulateAppend([], bl, factionPart + Flatten(src.memeSets), kindPart);
    assert t == Accumulate([], bl, Entries(src));
    var rest := 1.0 - Total(t);
    if rest > 0.0 {
      t := t + [(bl, rest)];
    }
  }

  /** The table with the xenotypes that cannot be generated as combatants removed. */
  function CombatantsOnly(t: Table, canGenerateAsCombatant: XenotypeId -> bool): (r: Table)
    ensures forall i :: 0 <= i < |r| ==> canGenerateAsCombatant(r[i].0) && r[i] in t
  {
    if |t| == 0 then []
    else
      var rest := CombatantsOnly(t[..|t| - 1], canGenerateAsCombatant);
      if canGenerateAsCombatant(t[|t| - 1].0) then rest + [t[|t| - 1]] else rest
  }

  function WeightsOf(t: Table): (r: seq<real>)
    ensures |r| == |t| && forall i :: 0 <= i < |t| ==> r[i] == t[i].1
  {
    if |t| == 0 then [] else WeightsOf(t[..|t| - 1]) + [t[|t| - 1].1]
  }

  datatype XenotypeRequest = XenotypeRequest(
    forcedXenotype: Option<XenotypeId>,
    hasForcedCustomXenotype: bool,
    forceBaselinerChance: real,
    allowedXenotypes: Option<seq<XenotypeId>>,
    mustBeCapableOfViolence: bool)

  datatype XenotypeDraws = XenotypeDraws(baselinerChance: real, allowedIndex: nat, weighted: real)

  predicate DrawsFit(d: XenotypeDraws)
  {
    Rand.IsUnit(d.baselinerChance) && Rand.IsUnit(d.weighted)
  }

  /** The table the weighted pick is made from. */
  function PickTable(req: XenotypeRequest, src: XenotypeSources, canGenerateAsCombatant: XenotypeId -> bool): Table
  {
    var t := AvailableTable(src);
    if req.mustBeCapableOfViolence then CombatantsOnly(t, canGenerateAsCombatant) else t
  }

  /** GetXenotypeForGeneratedPawn, from the request's overrides down to the weighted pick and Baseliner. */
  function XenotypeFor(req: XenotypeRequest, src: XenotypeSources, canGenerateAsCombatant: XenotypeId -> bool, d: XenotypeDraws)
    : (r: XenotypeId)
    requires DrawsFit(d)
    ensures req.forcedXenotype.Some? ==> r == req.forcedXenotype.value
    ensures req.forcedXenotype.None? && req.hasForcedCustomXenotype ==> r == src.baseliner
  {
    if req.forcedXenotype.Some? then req.forcedXenotype.value
    else if req.hasForcedCustomXenotype then src.baseliner
    else if Rand.Chance(req.forceBaselinerChance, d.baselinerChance) then src.baseliner
    else if req.allowedXenotypes.Some? && |req.allowedXenotypes.value| > 0 then
      Rand.RandomElement(req.allowedXenotypes.value, d.allowedIndex).value
    else
      var t := PickTable(req, src, canGenerateAsCombatant);
      var w := WeightsOf(t);
      Rand.WeightedPickSound(w, d.weighted);
      match Rand.WeightedPick(w, d.weighted)
      case Some(i) => t[i].0
      case None => src.baseliner
  }

  /**
   * Without overrides, the result is one of the allowed xenotypes when a
   * non-empty list is given; otherwise it is Baseliner or a xenotype with
   * positive weight in the table, one that can fight when violence is
   * required.
   */
  lemma XenotypeForChoices(req: XenotypeRequest, src: XenotypeSources, canGenerateAsCombatant: XenotypeId -> bool, d: XenotypeDraws)
    requires DrawsFit(d) && req.forcedXenotype.None? && !req.hasForcedCustomXenotype
    ensures var r := XenotypeFor(req, src, canGenerateAsCombatant, d);
      if req.allowedXenotypes.Some? && |req.allowedXenotypes.value| > 0 then
        r == src.baseliner || r in req.allowedXenotypes.value
      else
        r == src.baseliner
        || (exists i :: 0 <= i < |AvailableTable(src)| && AvailableTable(src)[i].0 == r && AvailableTable(src)[i].1 > 0.0
              && (req.mustBeCapableOfViolence ==> canGenerateAsCombatant(r)))
  {
    var r := XenotypeFor(req, src, canGenerateAsCombatant, d);
    if !Rand.Chance(req.forceBaselinerChance, d.baselinerChance) && !(req.allowedXenotypes.Some? && |req.allowedXenotypes.value| > 0) {
      var t := PickTable(req, src, canGenerateAsCombatant);
      var w := WeightsOf(t);
      Rand.WeightedPickSound(w, d.weighted);
      if Rand.WeightedPick(w, d.weighted).Some? {
        var i := Rand.WeightedPick(w, d.weighted).value;
        assert t[i] in AvailableTable(src);
        var j :| 0 <= j < |AvailableTable(src)| && AvailableTable(src)[j] == t[i];
      }
    }
  }

  /** With a forced Baseliner chance of 1, every pawn without a forced xenotype is Baseliner. */
  lemma CertainBaseliner(req: XenotypeRequest, src: XenotypeSources, canGenerateAsCombatant: XenotypeId -> bool, d: XenotypeDraws)
    requires DrawsFit(d) && req.forcedXenotype.None? && req.forceBaselinerChance >= 1.0
    ensures XenotypeFor(req, src, canGenerateAsCombatant, d) == src.baseliner
  {
  }

  /** GetXenotypeForGeneratedPawn. */
  method GetXenotypeForGeneratedPawn(req: XenotypeRequest, src: XenotypeSources, canGenerateAsCombatant: XenotypeId -> bool, d: XenotypeDraws)
    returns (r: XenotypeId)
    requires DrawsFit(d)
    ensures r == XenotypeFor(req, src, canGenerateAsCombatant, d)
  {
    if req.forcedXenotype.Some? {
      return req.forcedXenotype.value;
    }
    if req.hasForcedCustomXenotype {
      return src.baseliner;
    }
    if Rand.Chance(req.forceBaselinerChance, d.baselinerChance) {
      return src.baseliner;
    }
    if req.allowedXenotypes.Some? && |req.allowedXenotypes.value| > 0 {
      return Rand.RandomElement(req.allowedXenotypes.value, d.allowedIndex).value;
    }
    var t := XenotypesAvailableFor(src);
    if req.mustBeCapableOfViolence {
      t := CombatantsOnly(t, canGenerateAsCombatant);
    }
    var w := WeightsOf(t);
    Rand.WeightedPickSound(w, d.weighted);
    var pick := Rand.WeightedPick(w, d.weighted);
    if pick.Some? {
      return t[pick.value].0;
    }
    return src.baseliner;
  }
}
