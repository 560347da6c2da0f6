/**
 * Precept names: the search for a name whose long words are not already used
 * by the ideo's other precepts of the same kind, the SetName cascade that
 * renames every precept taking its name from the renamed one, and the
 * description and copy helpers.
 *
 * An ideo's precepts are records in the `Ideo` object's list; a precept is
 * named by its index. `GenerateNameRaw` is abstract in the source; its
 * successive results are the oracle `raws`.
 */
module Precepts {
  import opened Wrappers

  /** The words of a name eligible for the uniqueness score have at least this many letters. */
  const MinWordLength: nat := 4
  /** The search draws at most this many raw names. */
  const MaxRawNames: nat := 52

  datatype PreceptDef = PreceptDef(id: nat, takeNameFrom: Option<nat>, ignoreNameUniqueness: bool,
                                   visible: bool, description: string)

  /**
   * The fields of a precept the model follows. `kind` stands for the
   * precept's runtime type; `ideo` names the ideo it belongs to.
   */
  datatype Precept = Precept(ideo: nat, def: PreceptDef, kind: nat, name: Option<string>, id: int,
                             usesDefiniteArticle: bool, descOverride: Option<string>, randomSeed: int,
                             nameLocked: bool, labelCapCache: Option<string>)
  {
    /** The description override when set and non-empty, else the def's description. */
    function Description(): (r: string)
      ensures descOverride.Some? && |descOverride.value| > 0 ==> r == descOverride.value
      ensures (descOverride.None? || |descOverride.value| == 0) ==> r == def.description
    {
      if descOverride.Some? && |descOverride.value| > 0 then descOverride.value else def.description
    }
  }

  /** CopyTo: `other` takes over the eight identity fields of `p` and keeps its own kind and label cache. */
  function CopyTo(p: Precept, other: Precept): (r: Precept)
    ensures r.ideo == p.ideo && r.def == p.def && r.name == p.name && r.id == p.id
    ensures r.usesDefiniteArticle == p.usesDefiniteArticle && r.descOverride == p.descOverride
    ensures r.randomSeed == p.randomSeed && r.nameLocked == p.nameLocked
    ensures r.kind == other.kind && r.labelCapCache == other.labelCapCache
  {
    other.(ideo := p.ideo, def := p.def, name := p.name, id := p.id, usesDefiniteArticle := p.usesDefiniteArticle,
           descOverride := p.descOverride, randomSeed := p.randomSeed, nameLocked := p.nameLocked)
  }

  /** A copy describes itself as the original does, and copying again changes nothing. */
  lemma CopyKeepsDescription(p: Precept, other: Precept)
    ensures CopyTo(p, other).Description() == p.Description()
    ensures CopyTo(p, CopyTo(p, other)) == CopyTo(p, other)
  {
  }

  // ---------------------------------------------------------------------
  // Words and uniqueness

  /** string.Split(' '): the pieces between spaces, empty pieces included. */
  function Split(s: string): (r: seq<string>)
    ensures |r| > 0
    ensures forall k :: 0 <= k < |r| ==> ' ' !in r[k]
  {
    SplitFrom(s, "")
  }

  function SplitFrom(s: string, cur: string): (r: seq<string>)
    requires ' ' !in cur
    ensures |r| > 0
    ensures forall k :: 0 <= k < |r| ==> ' ' !in r[k]
    decreases |s|
  {
    if |s| == 0 then [cur]
    else if s[0] == ' ' then [cur] + SplitFrom(s[1..], "")
    else SplitFrom(s[1..], cur + [s[0]])
  }

  /** The words the uniqueness score looks at. */
  function EligibleCount(words: seq<string>): (r: nat)
    ensures r <= |words|
  {
    if |words| == 0 then 0
    else EligibleCount(words[..|words| - 1]) + (if |words[|words| - 1]| >= MinWordLength then 1 else 0)
  }

  /** The eligible words already used. */
  function UsedCount(words: seq<string>, used: set<string>): (r: nat)
    ensures r <= EligibleCount(words)
  {
    if |words| == 0 then 0
    else
      var last := words[|words| - 1];
      UsedCount(words[..|words| - 1], used) + (if |last| >= MinWordLength && last in used then 1 else 0)
  }

  /** NameUniqueness: the share of a name's long words not used yet; 1 when it has none. */
  function NameUniqueness(newName: string, used: set<string>): (r: real)
    ensures 0.0 <= r <= 1.0
    ensures r == 1.0 <==> UsedCount(Split(newName), used) == 0
  {
    var words := Split(newName);
    var eligible, usedWords := EligibleCount(words), UsedCount(words, used);
    if eligible != 0 then
      FractionAtMostOne(usedWords, eligible);
      1.0 - usedWords as real / eligible as real
    else 1.0
  }

  lemma FractionAtMostOne(a: nat, b: nat)
    requires a <= b && b > 0
    ensures 0.0 <= a as real / b as real <= 1.0
    ensures a as real / b as real == 0.0 <==> a == 0
  {
  }

  /** No long word of the name is used exactly when none of its eligible words is in the used set. */
  lemma {:induction false} UsedCountZero(words: seq<string>, used: set<string>)
    ensures UsedCount(words, used) == 0 <==>
              forall k :: 0 <= k < |words| && |words[k]| >= MinWordLength ==> words[k] !in used
    decreases |words|
  {
    if |words| > 0 {
      var init := words[..|words| - 1];
      UsedCountZero(init, used);
      assert forall k :: 0 <= k < |init| ==> init[k] == words[k];
    }
  }

  /** A name every word of which is short is always fully unique. */
  lemma ShortWordsAreUnique(newName: string, used: set<string>)
    requires forall k :: 0 <= k < |Split(newName)| ==> |Split(newName)[k]| < MinWordLength
    ensures NameUniqueness(newName, used) == 1.0
  {
    UsedCountZero(Split(newName), used);
  }

  /** The words a name contributes to the used set: the whole name and each of its pieces. */
  function WordsOf(n: string): set<string>
  {
    {n} + set k | 0 <= k < |Split(n)| :: Split(n)[k]
  }

  /**
   * The used words for precept `i`, from the first `n` precepts: the names
   * and name pieces of the other precepts of the same kind that have a name.
   */
  function UsedWordsUpTo(ps: seq<Precept>, i: nat, n: nat): set<string>
    requires i < |ps| && n <= |ps|
  {
    if n == 0 then {}
    else
      var q := ps[n - 1];
      UsedWordsUpTo(ps, i, n - 1)
      + (if n - 1 != i && q.kind == ps[i].kind && q.name.Some? then WordsOf(q.name.value) else {})
  }

  function UsedWords(ps: seq<Precept>, i: nat): set<string>
    requires i < |ps|
  {
    UsedWordsUpTo(ps, i, |ps|)
  }

  /** Another precept's name of the same kind is a used word, and so is each of its pieces. */
  lemma {:induction false} OtherNamesAreUsed(ps: seq<Precept>, i: nat, n: nat, j: nat)
    requires i < |ps| && j < n <= |ps| && j != i && ps[j].kind == ps[i].kind && ps[j].name.Some?
    ensures WordsOf(ps[j].name.value) <= UsedWordsUpTo(ps, i, n)
    decreases n
  {
    if j < n - 1 {
      OtherNamesAreUsed(ps, i, n - 1, j);
    }
  }

  /** The precept's own name never counts as used unless another precept carries it too. */
  lemma {:induction false} OwnNameIgnored(ps: seq<Precept>, i: nat, n: nat, w: string)
    requires i < |ps| && n <= |ps|
    requires forall j :: 0 <= j < |ps| && j != i && ps[j].name.Some? ==> w !in WordsOf(ps[j].name.value)
    ensures w !in UsedWordsUpTo(ps, i, n)
    decreases n
  {
    if n > 0 {
      OwnNameIgnored(ps, i, n - 1, w);
    }
  }

  /** The index of the accepted raw name: the first fully unique one among the first 52, else the 52nd. */
  function FirstUnique(used: set<string>, raws: nat -> string, k: nat): (r: nat)
    requires k < MaxRawNames
    ensures k <= r < MaxRawNames
    decreases MaxRawNames - k
  {
    if k == MaxRawNames - 1 || NameUniqueness(raws(k), used) >= 1.0 then k
    else FirstUnique(used, raws, k + 1)
  }

  /** The search stops at the first fully unique name, or gives up on the 52nd draw. */
  lemma {:induction false} FirstUniqueSound(used: set<string>, raws: nat -> string, k: nat)
    requires k < MaxRawNames
    ensures var r := FirstUnique(used, raws, k);
      && (forall j :: k <= j < r ==> NameUniqueness(raws(j), used) < 1.0)
      && (NameUniqueness(raws(r), used) >= 1.0 || r == MaxRawNames - 1)
    decreases MaxRawNames - k
  {
    if k < MaxRawNames - 1 && NameUniqueness(raws(k), used) < 1.0 {
      FirstUniqueSound(used, raws, k + 1);
    }
  }

  /** A piece without spaces is carried to the end of the input whole. */
  lemma {:induction false} SplitNoSpace(w: string, cur: string)
    requires ' ' !in w && ' ' !in cur
    ensures SplitFrom(w, cur) == [cur + w]
    decreases |w|
  {
    if |w| == 0 {
      assert cur + w == cur;
    } else {
      assert w[0] != ' ' by { assert w[0] in w; }
      assert ' ' !in w[1..] by { assert forall c :: c in w[1..] ==> c in w; }
      SplitNoSpace(w[1..], cur + [w[0]]);
      assert cur + [w[0]] + w[1..] == cur + w;
    }
  }

  /** A space ends the current piece. */
  lemma {:induction false} SplitAtSpace(w: string, rest: string, cur: string)
    requires ' ' !in w && ' ' !in cur
    ensures SplitFrom(w + " " + rest, cur) == [cur + w] + SplitFrom(rest, "")
    decreases |w|
  {
    if |w| == 0 {
      assert w + " " + rest == " " + rest;
      assert (" " + rest)[1..] == rest;
      assert cur + w == cur;
    } else {
      assert w[0] != ' ' by { assert w[0] in w; }
      assert (w + " " + rest)[0] == w[0];
      assert ' ' !in w[1..] by { assert forall c :: c in w[1..] ==> c in w; }
      assert (w + " " + rest)[1..] == w[1..] + " " + rest;
      SplitAtSpace(w[1..], rest, cur + [w[0]]);
      assert cur + [w[0]] + w[1..] == cur + w;
    }
  }

  /** The raw names of the example below: one half-unique name, then the same used word forever. */
  function WolfNames(k: nat): string
  {
    if k == 0 then "Wolf Moon" else "Wolf"
  }

  lemma SplitWolfMoon()
    ensures Split("Wolf Moon") == ["Wolf", "Moon"]
    ensures Split("Wolf") == ["Wolf"]
  {
    SplitNoSpace("Wolf", "");
    SplitNoSpace("Moon", "");
    SplitAtSpace("Wolf", "Moon", "");
    assert "Wolf" + " " + "Moon" == "Wolf Moon";
    assert "" + "Wolf" == "Wolf" && "" + "Moon" == "Moon";
  }

  lemma WolfUniqueness()
    ensures NameUniqueness("Wolf Moon", {"Wolf"}) == 0.5
    ensures NameUniqueness("Wolf", {"Wolf"}) == 0.0
  {
    SplitWolfMoon();
    var ws := ["Wolf", "Moon"];
    assert ws[..1] == ["Wolf"] && ["Wolf"][..0] == [];
    assert "Moon" != "Wolf" by { assert "Moon"[0] != "Wolf"[0]; }
    assert EligibleCount(ws) == 2;
    assert UsedCount(ws, {"Wolf"}) == 1;
    assert UsedCount(["Wolf"], {"Wolf"}) == 1;
  }

  /**
   * Giving up returns the last raw name, however much better an earlier one
   * was: here the first draw is half unique and every later one not at all.
   */
  lemma GiveUpReturnsLastName()
    ensures NameUniqueness(WolfNames(0), {"Wolf"}) == 0.5
    ensures NameUniqueness(WolfNames(MaxRawNames - 1), {"Wolf"}) == 0.0
    ensures FirstUnique({"Wolf"}, WolfNames, 0) == MaxRawNames - 1
  {
    WolfUniqueness();
    FirstUniqueSound({"Wolf"}, WolfNames, 0);
    var r := FirstUnique({"Wolf"}, WolfNames, 0);
    assert NameUniqueness(WolfNames(r), {"Wolf"}) < 1.0;
  }

  // ---------------------------------------------------------------------
  // The ideo and its precepts

  /** The index of the first precept of def `d`. */
  function FirstOfDef(ps: seq<Precept>, d: nat): (r: Option<nat>)
    ensures r.Some? <==> exists k :: 0 <= k < |ps| && ps[k].def.id == d
    ensures r.Some? ==> r.value < |ps| && ps[r.value].def.id == d
                        && forall k :: 0 <= k < r.value ==> ps[k].def.id != d
  {
    if |ps| == 0 then None
    else if ps[0].def.id == d then Some(0)
    else
      var rest := FirstOfDef(ps[1..], d);
      assert forall k :: 1 <= k < |ps| ==> ps[k] == ps[1..][k - 1];
      if rest.Some? then Some(rest.value + 1) else None
  }

  /** The precept a name is taken from exists (First would throw otherwise). */
  predicate NameSourceExists(ps: seq<Precept>, j: nat)
    requires j < |ps|
  {
    ps[j].def.takeNameFrom.Some? ==> FirstOfDef(ps, ps[j].def.takeNameFrom.value).Some?
  }

  /** What GenerateNewName returns for precept `j`. */
  function NewName(ps: seq<Precept>, hiddenIdeoMode: bool, j: nat, raws: nat -> string): Option<string>
    requires j < |ps| && NameSourceExists(ps, j)
  {
    var def := ps[j].def;
    if def.takeNameFrom.Some? then ps[FirstOfDef(ps, def.takeNameFrom.value).value].name
    else if def.ignoreNameUniqueness || hiddenIdeoMode then Some(raws(0))
    else Some(raws(FirstUnique(UsedWords(ps, j), raws, 0)))
  }

  /** Only names and label caches differ. */
  ghost predicate OnlyNamesChanged(before: seq<Precept>, after: seq<Precept>)
  {
    |before| == |after|
    && forall k :: 0 <= k < |after| ==>
         after[k] == before[k].(name := after[k].name, labelCapCache := after[k].labelCapCache)
  }

  /**
   * Apart from precept `i`, only precepts that take their name from a def of
   * at least `i`'s def id changed.
   */
  ghost predicate ChangedOnlyDependents(before: seq<Precept>, after: seq<Precept>, i: nat, d: nat)
    requires |before| == |after|
  {
    forall k :: (0 <= k < |after| && k != i
                 && !(after[k].def.takeNameFrom.Some? && after[k].def.takeNameFrom.value >= d)) ==> after[k] == before[k]
  }

  lemma OnlyNamesChangedTrans(a: seq<Precept>, b: seq<Precept>, c: seq<Precept>)
    requires OnlyNamesChanged(a, b) && OnlyNamesChanged(b, c)
    ensures OnlyNamesChanged(a, c)
  {
  }

  /** The first precept of a def keeps its name when no precept of that def changed. */
  lemma FirstNameStable(a: seq<Precept>, b: seq<Precept>, d: nat)
    requires OnlyNamesChanged(a, b)
    requires forall k :: 0 <= k < |a| && a[k].def.id == d ==> b[k] == a[k]
    requires FirstOfDef(a, d).Some?
    ensures FirstOfDef(b, d) == FirstOfDef(a, d)
    ensures b[FirstOfDef(b, d).value].name == a[FirstOfDef(a, d).value].name
  {
    var f := FirstOfDef(a, d).value;
    assert b[f].def.id == d;
    assert forall k :: 0 <= k < f ==> b[k].def.id == a[k].def.id;
  }

  /**
   * Def ids are below `bound`, and a def takes its name from a def of lower
   * id, so the renaming cascade cannot come back to where it started.
   */
  ghost predicate NamesFromLowerDefs(ps: seq<Precept>, bound: nat)
  {
    forall k :: 0 <= k < |ps| ==>
      ps[k].def.id < bound
      && (ps[k].def.takeNameFrom.Some? ==> ps[k].def.takeNameFrom.value < ps[k].def.id)
  }

  class Ideo {
    var precepts: seq<Precept>
    var hiddenIdeoMode: bool
    /** Every precept def id is below this bound. */
    const defIdBound: nat

    /** The precepts keep the ordering the renaming cascade terminates by. */
    ghost predicate Valid()
      reads this
    {
      NamesFromLowerDefs(precepts, defIdBound)
    }

    constructor (ps: seq<Precept>, hidden: bool, bound: nat)
      ensures precepts == ps && hiddenIdeoMode == hidden && defIdBound == bound
      ensures Valid() <==> NamesFromLowerDefs(ps, bound)
    {
      precepts := ps;
      hiddenIdeoMode := hidden;
      defIdBound := bound;
    }

    /** The loop that collects tmpUsedWords. */
    method CollectUsedWords(i: nat) returns (used: set<string>)
      requires i < |precepts|
      ensures used == UsedWords(precepts, i)
    {
      used := {};
      var n := 0;
      while n < |precepts|
        invariant 0 <= n <= |precepts|
        invariant used == UsedWordsUpTo(precepts, i, n)
      {
        var q := precepts[n];
        if n != i && q.kind == precepts[i].kind && q.name.Some? {
          used := used + {q.name.value};
          var words := Split(q.name.value);
          var w := 0;
          while w < |words|
            invariant 0 <= w <= |words|
            invariant used == UsedWordsUpTo(precepts, i, n) + {q.name.value} + set k | 0 <= k < w :: words[k]
          {
            used := used + {words[w]};
            w := w + 1;
          }
        }
        n := n + 1;
      }
    }

    /**
     * GenerateNewName for precept `j`: the name of the first precept of the
     * def it takes its name from; otherwise the first raw name when
     * uniqueness does not matter; otherwise the bounded search.
     */
    method GenerateNewName(j: nat, raws: nat -> string) returns (r: Option<string>)
      requires j < |precepts| && NameSourceExists(precepts, j)
      modifies this
      ensures r == NewName(old(precepts), old(hiddenIdeoMode), j, raws)
      ensures hiddenIdeoMode == old(hiddenIdeoMode)
      ensures precepts == if old(precepts[j].def.takeNameFrom).Some? then old(precepts)
                          else old(precepts)[j := old(precepts[j]).(labelCapCache := None)]
    {
      var used := CollectUsedWords(j);
      var def := precepts[j].def;
      if def.takeNameFrom.Some? {
        var f := FirstOfDef(precepts, def.takeNameFrom.value);
        return precepts[f.value].name;
      }
      ghost var ps := precepts;
      precepts := precepts[j := precepts[j].(labelCapCache := None)];
      if def.ignoreNameUniqueness || hiddenIdeoMode {
        return Some(raws(0));
      }
      var num2 := 0;
      var best := 0.0;
      var text: Option<string> := None;
      while true
        invariant 0 <= num2 < MaxRawNames
        invariant FirstUnique(used, raws, num2) == FirstUnique(used, raws, 0)
        decreases MaxRawNames - num2
      {
        var cand := raws(num2);
        var u := NameUniqueness(cand, used);
        if u >= 1.0 {
          text := Some(cand);
          break;
        }
        if u > best {
          text := Some(cand);
          best := u;
        }
        if num2 > 50 {
          text := Some(cand);
          break;
        }
        num2 := num2 + 1;
      }
      r := text;
    }

    /** RegenerateName: SetName with a newly generated name. */
    method RegenerateName(j: nat, raws: nat -> string)
      requires Valid() && j < |precepts| && NameSourceExists(precepts, j)
      modifies this
      decreases defIdBound - precepts[j].def.id, 2
      ensures Valid() && OnlyNamesChanged(old(precepts), precepts) && hiddenIdeoMode == old(hiddenIdeoMode)
      ensures ChangedOnlyDependents(old(precepts), precepts, j, precepts[j].def.id)
      ensures precepts[j].name == NewName(old(precepts), old(hiddenIdeoMode), j, raws)
    {
      var n := GenerateNewName(j, raws);
      SetName(j, n, raws);
    }

    /**
     * SetName: nothing happens for an equal name; otherwise the name is set,
     * the label cache cleared, and every precept that takes its name from
     * this precept's def regenerates its name.
     */
    method SetName(i: nat, newName: Option<string>, raws: nat -> string)
      requires Valid() && i < |precepts|
      modifies this
      decreases defIdBound - precepts[i].def.id, 1
      ensures Valid() && OnlyNamesChanged(old(precepts), precepts) && hiddenIdeoMode == old(hiddenIdeoMode)
      ensures precepts[i].name == newName
      ensures old(precepts[i].name) == newName ==> precepts == old(precepts)
      ensures old(precepts[i].name) != newName ==> precepts[i].labelCapCache.None?
      ensures ChangedOnlyDependents(old(precepts), precepts, i, precepts[i].def.id)
      ensures old(precepts[i].name) != newName ==>
                forall k :: 0 <= k < |precepts| && precepts[k].def.takeNameFrom == Some(precepts[i].def.id) ==>
                  precepts[k].name == precepts[FirstOfDef(precepts, precepts[i].def.id).value].name
    {
      if newName == precepts[i].name {
        return;
      }
      precepts := precepts[i := precepts[i].(labelCapCache := None, name := newName)];
      ghost var start := precepts;
      RenameDependents(i, raws);
      OnlyNamesChangedTrans(old(precepts), start, precepts);
    }

    /** The loop at the end of SetName: every precept taking its name from precept `i`'s def regenerates it. */
    method RenameDependents(i: nat, raws: nat -> string)
      requires Valid() && i < |precepts|
      modifies this
      decreases defIdBound - precepts[i].def.id, 0, 1
      ensures Valid() && OnlyNamesChanged(old(precepts), precepts) && hiddenIdeoMode == old(hiddenIdeoMode)
      ensures precepts[i] == old(precepts[i])
      ensures ChangedOnlyDependents(old(precepts), precepts, i, precepts[i].def.id)
      ensures FirstOfDef(precepts, precepts[i].def.id) == FirstOfDef(old(precepts), precepts[i].def.id)
      ensures forall k :: 0 <= k < |precepts| && precepts[k].def.takeNameFrom == Some(precepts[i].def.id) ==>
                precepts[k].name == precepts[FirstOfDef(precepts, precepts[i].def.id).value].name
    {
      ghost var start := precepts;
      var d := precepts[i].def.id;
      assert FirstOfDef(precepts, d).Some?;
      var k := 0;
      while k < |precepts|
        invariant 0 <= k <= |precepts|
        invariant Valid() && hiddenIdeoMode == old(hiddenIdeoMode)
        invariant CascadeInv(start, precepts, i, k, d)
      {
        RenameAt(i, k, d, start, raws);
        k := k + 1;
      }
    }

    /** One iteration of RenameDependents' loop: precept `k` regenerates its name if it takes it from def `d`. */
    method RenameAt(i: nat, k: nat, d: nat, ghost start: seq<Precept>, raws: nat -> string)
      requires Valid() && k < |precepts| && CascadeInv(start, precepts, i, k, d)
      modifies this
      decreases defIdBound - d, 0, 0
      ensures Valid() && hiddenIdeoMode == old(hiddenIdeoMode)
      ensures CascadeInv(start, precepts, i, k + 1, d)
    {
      if precepts[k].def.takeNameFrom == Some(d) {
        ghost var before := precepts;
        assert before[k].def.id > d;
        assert NameSourceExists(before, k);
        RegenerateName(k, raws);
        assert precepts[k].name == before[FirstOfDef(before, d).value].name;
        CascadeStep(start, before, precepts, i, k, d);
      }
    }
  }

  /**
   * What RenameDependents' loop keeps after `k` iterations: only names
   * changed, precept `i` untouched, only dependents changed, the name source
   * unchanged, and the first `k` dependents renamed after it.
   */
  ghost predicate CascadeInv(start: seq<Precept>, ps: seq<Precept>, i: nat, k: nat, d: nat)
  {
    i < |start| && start[i].def.id == d && k <= |ps|
    && OnlyNamesChanged(start, ps) && ps[i] == start[i]
    && ChangedOnlyDependents(start, ps, i, d)
    && FirstOfDef(start, d).Some?
    && FirstOfDef(ps, d) == FirstOfDef(start, d)
    && ps[FirstOfDef(ps, d).value].name == start[FirstOfDef(start, d).value].name
    && (forall j :: 0 <= j < k && ps[j].def.takeNameFrom == Some(d) ==> ps[j].name == start[FirstOfDef(start, d).value].name)
  }

  /** One dependent's regeneration keeps what SetName's loop has established. */
  lemma CascadeStep(start: seq<Precept>, before: seq<Precept>, after: seq<Precept>, i: nat, k: nat, d: nat)
    requires i < |start| && k < |start| && start[i].def.id == d
    requires forall m :: 0 <= m < |start| ==>
               start[m].def.takeNameFrom.Some? ==> start[m].def.takeNameFrom.value < start[m].def.id
    requires OnlyNamesChanged(start, before) && OnlyNamesChanged(before, after)
    requires before[i] == start[i] && before[k].def.takeNameFrom == Some(d)
    requires ChangedOnlyDependents(start, before, i, d)
    requires ChangedOnlyDependents(before, after, k, before[k].def.id)
    requires FirstOfDef(before, d) == FirstOfDef(start, d)
    requires before[FirstOfDef(before, d).value].name == start[FirstOfDef(start, d).value].name
    requires after[k].name == before[FirstOfDef(before, d).value].name
    requires forall j :: 0 <= j < k && before[j].def.takeNameFrom == Some(d) ==>
               before[j].name == start[FirstOfDef(start, d).value].name
    ensures OnlyNamesChanged(start, after) && after[i] == start[i]
    ensures ChangedOnlyDependents(start, after, i, d)
    ensures FirstOfDef(after, d) == FirstOfDef(start, d)
    ensures after[FirstOfDef(after, d).value].name == start[FirstOfDef(start, d).value].name
    ensures forall j :: 0 <= j < k + 1 && after[j].def.takeNameFrom == Some(d) ==>
              after[j].name == start[FirstOfDef(start, d).value].name
  {
    OnlyNamesChangedTrans(start, before, after);
    var e := before[k].def.id;
    assert e > d;
    forall m | 0 <= m < |before| && before[m].def.id == d
      ensures after[m] == before[m]
    {
      assert m != k;
    }
    FirstNameStable(before, after, d);
  }
}
