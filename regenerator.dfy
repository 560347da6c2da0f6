/**
 * The RegeneratorGene mod: once an in-game hour, a pawn with the gene starts
 * regrowing each missing limb whose parent is present, advances every limb
 * already regrowing, and cures one bad condition per regrowable limb.
 *
 * Hediffs (health conditions) are values with an id standing for object
 * identity; body parts are indices into a body whose parent table points
 * to lower indices. Severities are in hundredths.
 */
module Regenerator {
  import opened Wrappers

  type DefId = nat

  /** The Hediff subclasses the mod distinguishes; everything else is OtherHediff. */
  datatype HediffKind = MissingPart | Injury | Addiction | AddedPart | OtherHediff

  /**
   * A hediff with the properties the mod reads. visible, everCurableByItem,
   * isBad, stages, lethalSeverity and cureAllAtOnce come from the hediff's def;
   * immunizable says the hediff has an immunizable comp.
   */
  datatype Hediff = Hediff(
    id: nat, def: DefId, kind: HediffKind, part: Option<nat>, severity: int,
    visible: bool, everCurableByItem: bool, isBad: bool,
    immunizable: bool, fullyImmune: bool,
    stages: Option<seq<bool>>, lethalSeverity: int, cureAllAtOnce: bool)

  /** parent[p] is the parent of part p (below p; anything else marks a root); coverage[p] is coverageAbsWithChildren. */
  datatype Body = Body(parent: seq<int>, coverage: seq<real>)

  /** The parent of a part, or None at the root. */
  function ParentOf(body: Body, p: nat): (r: Option<nat>)
    ensures r.Some? ==> r.value < p
  {
    if p < |body.parent| && 0 <= body.parent[p] < p then Some(body.parent[p] as nat) else None
  }

  function CoverageOf(body: Body, p: nat): real
  {
    if p < |body.coverage| then body.coverage[p] else 0.0
  }

  // ---------------------------------------------------------------------
  // CanEverKill and the two selectors
  // ---------------------------------------------------------------------

  function AnyLifeThreatening(stages: seq<bool>): (r: bool)
    ensures r <==> exists i :: 0 <= i < |stages| && stages[i]
  {
    if |stages| == 0 then false
    else if stages[0] then true
    else
      var rest := AnyLifeThreatening(stages[1..]);
      assert forall i :: 1 <= i < |stages| ==> stages[i] == stages[1..][i - 1];
      rest
  }

  /** CanEverKill: some stage is life-threatening, or the def has a lethal severity. */
  function CanEverKill(h: Hediff): (r: bool)
    ensures r <==> (h.stages.Some? && exists i :: 0 <= i < |h.stages.value| && h.stages.value[i])
                   || h.lethalSeverity >= 0
  {
    if h.stages.Some? && AnyLifeThreatening(h.stages.value) then true
    else h.lethalSeverity >= 0
  }

  /** What FindImmunizableHediffWhichCanKill looks for. */
  predicate ImmunizableCandidate(h: Hediff)
  {
    h.visible && h.everCurableByItem && h.immunizable && !h.fullyImmune && CanEverKill(h)
  }

  /** What FindNonInjuryMiscBadHediff looks for. */
  predicate MiscBadCandidate(h: Hediff, onlyIfCanKill: bool)
  {
    h.visible && h.isBad && h.everCurableByItem
    && !h.kind.Injury? && !h.kind.MissingPart? && !h.kind.Addiction? && !h.kind.AddedPart?
    && (!onlyIfCanKill || CanEverKill(h))
  }

  /** The misc-bad ranking: whole-body hediffs count as coverage 999. */
  function MiscBadKey(body: Body, h: Hediff): real
  {
    if h.part.None? then 999.0 else CoverageOf(body, h.part.value)
  }

  /** best is the first index of maximal key among the candidates of hs[..i]. */
  ghost predicate FirstMaxSoFar(hs: seq<Hediff>, ok: Hediff -> bool, key: Hediff -> real, i: nat, best: Option<nat>)
  {
    i <= |hs|
    && (best.None? ==> forall j :: 0 <= j < i ==> !ok(hs[j]))
    && (best.Some? ==>
          best.value < i && ok(hs[best.value])
          && (forall j :: 0 <= j < i && ok(hs[j]) ==> key(hs[j]) <= key(hs[best.value]))
          && (forall j :: 0 <= j < best.value && ok(hs[j]) ==> key(hs[j]) < key(hs[best.value])))
  }

  /** The selectors' loop: replace the best only on a strictly greater key. */
  function FirstMaxFrom(hs: seq<Hediff>, ok: Hediff -> bool, key: Hediff -> real, i: nat, best: Option<nat>): Option<nat>
    requires i <= |hs| && (best.Some? ==> best.value < |hs|)
    decreases |hs| - i
  {
    if i == |hs| then best
    else if ok(hs[i]) && (best.None? || key(hs[i]) > key(hs[best.value])) then FirstMaxFrom(hs, ok, key, i + 1, Some(i))
    else FirstMaxFrom(hs, ok, key, i + 1, best)
  }

  lemma {:induction false} FirstMaxFromSound(hs: seq<Hediff>, ok: Hediff -> bool, key: Hediff -> real, i: nat, best: Option<nat>)
    requires FirstMaxSoFar(hs, ok, key, i, best)
    ensures FirstMaxSoFar(hs, ok, key, |hs|, FirstMaxFrom(hs, ok, key, i, best))
    decreases |hs| - i
  {
    if i < |hs| {
      if ok(hs[i]) && (best.None? || key(hs[i]) > key(hs[best.value])) {
        FirstMaxFromSound(hs, ok, key, i + 1, Some(i));
      } else {
        FirstMaxFromSound(hs, ok, key, i + 1, best);
      }
    }
  }

  /** The index of the first candidate of maximal key, if any candidate exists. */
  function FirstMax(hs: seq<Hediff>, ok: Hediff -> bool, key: Hediff -> real): (r: Option<nat>)
    ensures r.Some? <==> exists j :: 0 <= j < |hs| && ok(hs[j])
    ensures r.Some? ==>
      r.value < |hs| && ok(hs[r.value])
      && (forall j :: 0 <= j < |hs| && ok(hs[j]) ==> key(hs[j]) <= key(hs[r.value]))
      && (forall j :: 0 <= j < r.value && ok(hs[j]) ==> key(hs[j]) < key(hs[r.value]))
  {
    FirstMaxFromSound(hs, ok, key, 0, None);
    FirstMaxFrom(hs, ok, key, 0, None)
  }

  /** FindImmunizableHediffWhichCanKill: the most severe immunizable candidate, the first on ties. */
  function FindImmunizableHediffWhichCanKill(hs: seq<Hediff>): (r: Option<Hediff>)
    ensures r.Some? <==> exists j :: 0 <= j < |hs| && ImmunizableCandidate(hs[j])
    ensures r.Some? ==>
              exists k :: 0 <= k < |hs| && hs[k] == r.value && ImmunizableCandidate(hs[k])
                          && (forall j :: 0 <= j < |hs| && ImmunizableCandidate(hs[j]) ==> hs[j].severity <= hs[k].severity)
                          && (forall j :: 0 <= j < k && ImmunizableCandidate(hs[j]) ==> hs[j].severity < hs[k].severity)
  {
    var k := FirstMax(hs, ImmunizableCandidate, (h: Hediff) => h.severity as real);
    if k.Some? then Some(hs[k.value]) else None
  }

  /** FindNonInjuryMiscBadHediff: the candidate of largest coverage, the first on ties. */
  function FindNonInjuryMiscBadHediff(hs: seq<Hediff>, body: Body, onlyIfCanKill: bool): (r: Option<Hediff>)
    ensures r.Some? <==> exists j :: 0 <= j < |hs| && MiscBadCandidate(hs[j], onlyIfCanKill)
    ensures r.Some? ==>
              exists k :: 0 <= k < |hs| && hs[k] == r.value && MiscBadCandidate(hs[k], onlyIfCanKill)
                          && (forall j :: 0 <= j < |hs| && MiscBadCandidate(hs[j], onlyIfCanKill) ==> MiscBadKey(body, hs[j]) <= MiscBadKey(body, hs[k]))
                          && (forall j :: 0 <= j < k && MiscBadCandidate(hs[j], onlyIfCanKill) ==> MiscBadKey(body, hs[j]) < MiscBadKey(body, hs[k]))
  {
    var k := FirstMax(hs, (h: Hediff) => MiscBadCandidate(h, onlyIfCanKill), (h: Hediff) => MiscBadKey(body, h));
    if k.Some? then Some(hs[k.value]) else None
  }

  /** The hediff queued for cure: immunizable lethal, else misc-bad lethal, else misc-bad. */
  function CureTarget(hs: seq<Hediff>, body: Body): (r: Option<Hediff>)
    ensures r.Some? <==> exists j :: 0 <= j < |hs| && (MiscBadCandidate(hs[j], false) || ImmunizableCandidate(hs[j]))
    ensures r.Some? ==> exists k :: 0 <= k < |hs| && hs[k] == r.value
  {
    var h1 := FindImmunizableHediffWhichCanKill(hs);
    if h1.Some? then h1
    else
      var h2 := FindNonInjuryMiscBadHediff(hs, body, true);
      if h2.Some? then h2
      else FindNonInjuryMiscBadHediff(hs, body, false)
  }

  /** A lethal misc-bad hediff is preferred to a non-lethal one, even of larger coverage. */
  lemma LethalMiscBadPreferred(hs: seq<Hediff>, body: Body, j: nat)
    requires j < |hs| && MiscBadCandidate(hs[j], true)
    requires forall i :: 0 <= i < |hs| ==> !ImmunizableCandidate(hs[i])
    ensures CureTarget(hs, body).Some? && CanEverKill(CureTarget(hs, body).value)
  {
  }

  // ---------------------------------------------------------------------
  // Hediff-set queries the scan makes
  // ---------------------------------------------------------------------

  /** HediffSet.PartIsMissing: some missing-part hediff sits on exactly that part. */
  predicate PartIsMissing(hs: seq<Hediff>, part: Option<nat>)
  {
    exists j :: 0 <= j < |hs| && hs[j].part == part && hs[j].kind.MissingPart?
  }

  predicate HasDirectlyAddedPartFor(hs: seq<Hediff>, p: nat)
  {
    exists j :: 0 <= j < |hs| && hs[j].part == Some(p) && hs[j].kind.AddedPart?
  }

  /** HediffSet.PartOrAnyAncestorHasDirectlyAddedParts. */
  predicate PartOrAnyAncestorHasDirectlyAddedParts(hs: seq<Hediff>, body: Body, p: nat)
    decreases p
  {
    HasDirectlyAddedPartFor(hs, p)
    || (var q := ParentOf(body, p); q.Some? && PartOrAnyAncestorHasDirectlyAddedParts(hs, body, q.value))
  }

  /** The LINQ query of the ancestor walk: a hediff of the given def on the part. */
  predicate HasHediffOn(hs: seq<Hediff>, p: nat, def: DefId)
  {
    exists j :: 0 <= j < |hs| && hs[j].part == Some(p) && hs[j].def == def
  }

  /** The flag of the ancestor walk: no part from p up to the root carries def. */
  predicate NoneOnPathToRoot(hs: seq<Hediff>, body: Body, def: DefId, p: nat)
    decreases p
  {
    !HasHediffOn(hs, p, def)
    && (var q := ParentOf(body, p); q.None? || NoneOnPathToRoot(hs, body, def, q.value))
  }

  /** A missing part whose parent is present and that has no added part above it. */
  predicate Qualifies(hs: seq<Hediff>, body: Body, h: Hediff)
  {
    h.kind.MissingPart? && h.part.Some?
    && !PartIsMissing(hs, ParentOf(body, h.part.value))
    && !PartOrAnyAncestorHasDirectlyAddedParts(hs, body, h.part.value)
  }

  /** A qualifying missing part that starts regrowing (its walk found nothing). */
  predicate StartsRegrowing(hs: seq<Hediff>, body: Body, def: DefId, h: Hediff)
  {
    Qualifies(hs, body, h) && NoneOnPathToRoot(hs, body, def, h.part.value)
  }

  /** Two lists that differ at most in severities. */
  ghost predicate SameShape(a: seq<Hediff>, b: seq<Hediff>)
  {
    |a| == |b|
    && forall k :: 0 <= k < |a| ==>
         a[k].id == b[k].id && a[k].def == b[k].def && a[k].kind == b[k].kind && a[k].part == b[k].part
  }

  lemma {:induction false} ShapeKeepsAddedParts(a: seq<Hediff>, b: seq<Hediff>, body: Body, p: nat)
    requires SameShape(a, b)
    ensures PartOrAnyAncestorHasDirectlyAddedParts(a, body, p) == PartOrAnyAncestorHasDirectlyAddedParts(b, body, p)
    decreases p
  {
    assert HasDirectlyAddedPartFor(a, p) == HasDirectlyAddedPartFor(b, p);
    var q := ParentOf(body, p);
    if q.Some? {
      ShapeKeepsAddedParts(a, b, body, q.value);
    }
  }

  lemma {:induction false} ShapeKeepsPath(a: seq<Hediff>, b: seq<Hediff>, body: Body, def: DefId, p: nat)
    requires SameShape(a, b)
    ensures NoneOnPathToRoot(a, body, def, p) == NoneOnPathToRoot(b, body, def, p)
    decreases p
  {
    assert HasHediffOn(a, p, def) == HasHediffOn(b, p, def);
    var q := ParentOf(body, p);
    if q.Some? {
      ShapeKeepsPath(a, b, body, def, q.value);
    }
  }

  /** Qualification does not depend on severities, so the in-place bumps of the scan do not affect it. */
  lemma ShapeKeepsQualification(a: seq<Hediff>, b: seq<Hediff>, body: Body, def: DefId, h: Hediff)
    requires SameShape(a, b)
    ensures Qualifies(a, body, h) == Qualifies(b, body, h)
    ensures StartsRegrowing(a, body, def, h) == StartsRegrowing(b, body, def, h)
  {
    if h.part.Some? {
      assert PartIsMissing(a, ParentOf(body, h.part.value)) == PartIsMissing(b, ParentOf(body, h.part.value));
      ShapeKeepsAddedParts(a, b, body, h.part.value);
      ShapeKeepsPath(a, b, body, def, h.part.value);
    }
  }

  // ---------------------------------------------------------------------
  // NaturalRegenerationOfLimbs as a function: the scan, then the removals, then the additions
  // ---------------------------------------------------------------------

  /** The severity bump of the scan: 0.10 for every hediff of the regrowing def. */
  function Bumped(h: Hediff, def: DefId): Hediff
  {
    if h.def == def then h.(severity := h.severity + 10) else h
  }

  /** HediffMaker.MakeHediff with severity 0.01; template carries the def's other properties. */
  function NewRegrowth(template: Hediff, def: DefId, id: nat, part: Option<nat>): (r: Hediff)
    ensures r.def == def && r.id == id && r.part == part && r.severity == 1
  {
    template.(id := id, def := def, part := part, severity := 1)
  }

  /** The scan's state: the list (with bumps so far), the removal and addition queues, the next hediff id. */
  datatype ScanState = ScanState(cur: seq<Hediff>, toRemove: seq<nat>, toAdd: seq<Hediff>, nextId: nat)

  /** One iteration of the scan, on the hediff at index i. */
  function ScanStep(body: Body, def: DefId, template: Hediff, s: ScanState, i: nat): (r: ScanState)
    requires i < |s.cur|
    ensures |r.cur| == |s.cur|
  {
    var h := s.cur[i];
    var s1 :=
      if Qualifies(s.cur, body, h) then
        var target := CureTarget(s.cur, body);
        var queued := s.toRemove + (if target.Some? then [target.value.id] else []);
        if NoneOnPathToRoot(s.cur, body, def, h.part.value) then
          ScanState(s.cur, queued + [h.id], s.toAdd + [NewRegrowth(template, def, s.nextId, h.part)], s.nextId + 1)
        else s.(toRemove := queued)
      else s;
    if h.def == def then
      var b := h.(severity := h.severity + 10);
      s1.(cur := s1.cur[i := b], toRemove := s1.toRemove + (if b.severity >= 100 then [h.id] else []))
    else s1
  }

  function ScanFrom(body: Body, def: DefId, template: Hediff, s: ScanState, i: nat): (r: ScanState)
    requires i <= |s.cur|
    ensures |r.cur| == |s.cur|
    decreases |s.cur| - i
  {
    if i == |s.cur| then s else ScanFrom(body, def, template, ScanStep(body, def, template, s, i), i + 1)
  }

  function Scan(hs: seq<Hediff>, body: Body, def: DefId, template: Hediff, nextId: nat): (r: ScanState)
    ensures |r.cur| == |hs|
  {
    ScanFrom(body, def, template, ScanState(hs, [], [], nextId), 0)
  }

  /** pawn.health.RemoveHediff: List.Remove of the first hediff with that identity, a no-op if absent. */
  function RemoveHediff(hs: seq<Hediff>, id: nat): (r: seq<Hediff>)
    ensures |r| <= |hs|
  {
    if |hs| == 0 then []
    else if hs[0].id == id then hs[1..]
    else [hs[0]] + RemoveHediff(hs[1..], id)
  }

  function RemoveAll(hs: seq<Hediff>, ids: seq<nat>): seq<Hediff>
    decreases |ids|
  {
    if |ids| == 0 then hs else RemoveAll(RemoveHediff(hs, ids[0]), ids[1..])
  }

  /** The hediffs whose id is not listed, in order. */
  function Without(hs: seq<Hediff>, ids: set<nat>): (r: seq<Hediff>)
    ensures forall j :: 0 <= j < |r| ==> r[j].id !in ids && r[j] in hs
    ensures forall j :: 0 <= j < |hs| && hs[j].id !in ids ==> hs[j] in r
  {
    if |hs| == 0 then []
    else
      var rest := Without(hs[1..], ids);
      assert forall j :: 1 <= j < |hs| ==> hs[j] == hs[1..][j - 1];
      if hs[0].id in ids then rest else [hs[0]] + rest
  }

  ghost predicate UniqueIds(hs: seq<Hediff>)
  {
    forall j, k :: 0 <= j < k < |hs| ==> hs[j].id != hs[k].id
  }

  ghost predicate IdsBelow(hs: seq<Hediff>, n: nat)
  {
    forall j :: 0 <= j < |hs| ==> hs[j].id < n
  }

  datatype Outcome = Outcome(hediffs: seq<Hediff>, nextId: nat)

  /** NaturalRegenerationOfLimbs: scan, apply every removal, then append every addition. */
  function Regenerate(hs: seq<Hediff>, body: Body, def: DefId, template: Hediff, nextId: nat): Outcome
  {
    var f := Scan(hs, body, def, template, nextId);
    Outcome(RemoveAll(f.cur, f.toRemove) + f.toAdd, f.nextId)
  }

  // ---------------------------------------------------------------------
  // Removal by identity
  // ---------------------------------------------------------------------

  lemma {:induction false} WithoutNothing(hs: seq<Hediff>, ids: set<nat>)
    requires forall j :: 0 <= j < |hs| ==> hs[j].id !in ids
    ensures Without(hs, ids) == hs
  {
    if |hs| > 0 {
      WithoutNothing(hs[1..], ids);
    }
  }

  /** With unique ids, removing one hediff removes exactly the hediffs with its id. */
  lemma {:induction false} RemoveHediffIsWithout(hs: seq<Hediff>, id: nat)
    requires UniqueIds(hs)
    ensures RemoveHediff(hs, id) == Without(hs, {id})
  {
    if |hs| > 0 {
      if hs[0].id == id {
        assert forall j :: 0 <= j < |hs[1..]| ==> hs[1..][j].id != id by {
          assert forall j :: 1 <= j < |hs| ==> hs[0].id != hs[j].id;
        }
        WithoutNothing(hs[1..], {id});
      } else {
        RemoveHediffIsWithout(hs[1..], id);
      }
    }
  }

  lemma {:induction false} WithoutKeepsUnique(hs: seq<Hediff>, ids: set<nat>)
    requires UniqueIds(hs)
    ensures UniqueIds(Without(hs, ids))
  {
    if |hs| > 0 {
      WithoutKeepsUnique(hs[1..], ids);
      var rest := Without(hs[1..], ids);
      forall j | 0 <= j < |rest|
        ensures rest[j].id != hs[0].id
      {
        var k :| 0 <= k < |hs[1..]| && hs[1..][k] == rest[j];
        assert hs[k + 1] == rest[j];
      }
    }
  }

  lemma {:induction false} WithoutTwice(hs: seq<Hediff>, a: set<nat>, b: set<nat>)
    ensures Without(Without(hs, a), b) == Without(hs, a + b)
  {
    if |hs| > 0 {
      WithoutTwice(hs[1..], a, b);
    }
  }

  function IdSet(ids: seq<nat>): set<nat>
  {
    set x | x in ids
  }

  /** Applying the removal queue removes exactly the hediffs whose ids it lists, whatever repeats it holds. */
  lemma {:induction false} RemoveAllIsWithout(hs: seq<Hediff>, ids: seq<nat>)
    requires UniqueIds(hs)
    ensures RemoveAll(hs, ids) == Without(hs, IdSet(ids))
    decreases |ids|
  {
    if |ids| == 0 {
      assert IdSet(ids) == {};
      WithoutNothing(hs, {});
    } else {
      RemoveHediffIsWithout(hs, ids[0]);
      WithoutKeepsUnique(hs, {ids[0]});
      RemoveAllIsWithout(Without(hs, {ids[0]}), ids[1..]);
      WithoutTwice(hs, {ids[0]}, IdSet(ids[1..]));
      assert {ids[0]} + IdSet(ids[1..]) == IdSet(ids);
    }
  }

  // ---------------------------------------------------------------------
  // What the scan computes
  // ---------------------------------------------------------------------

  ghost predicate Finishes(h: Hediff, def: DefId)
  {
    h.def == def && h.severity + 10 >= 100
  }

  /** The list after the first i hediffs of h0 were visited: those are bumped, the rest untouched. */
  ghost predicate ScanCur(h0: seq<Hediff>, def: DefId, s: ScanState, i: nat)
  {
    i <= |h0| && |s.cur| == |h0|
    && (forall k :: 0 <= k < i ==> s.cur[k] == Bumped(h0[k], def))
    && (forall k :: i <= k < |h0| ==> s.cur[k] == h0[k])
  }

  /**
   * The addition queue: fresh consecutive ids, and one regrowth per missing part
   * that starts regrowing; src[t] is the index in h0 of the missing part behind toAdd[t].
   */
  ghost predicate ScanAdds(h0: seq<Hediff>, body: Body, def: DefId, template: Hediff, n0: nat, s: ScanState, i: nat, src: seq<nat>)
  {
    i <= |h0|
    && s.nextId == n0 + |s.toAdd|
    && |src| == |s.toAdd|
    && (forall t :: 0 <= t < |s.toAdd| ==> s.toAdd[t] == NewRegrowth(template, def, n0 + t, s.toAdd[t].part))
    && (forall t :: 0 <= t < |src| ==>
          src[t] < i && StartsRegrowing(h0, body, def, h0[src[t]]) && s.toAdd[t].part == h0[src[t]].part)
  }

  function IdsOf(hs: seq<Hediff>): set<nat>
  {
    set k | 0 <= k < |hs| :: hs[k].id
  }

  function PartsOf(hs: seq<Hediff>): set<Option<nat>>
  {
    set k | 0 <= k < |hs| :: hs[k].part
  }

  /** The removal queue: every regrowing missing part and every finished regrowth, and only hediffs of h0. */
  ghost predicate ScanRemoves(h0: seq<Hediff>, body: Body, def: DefId, s: ScanState, i: nat)
  {
    i <= |h0|
    && (forall k :: 0 <= k < i && StartsRegrowing(h0, body, def, h0[k]) ==>
          h0[k].id in s.toRemove && h0[k].part in PartsOf(s.toAdd))
    && (forall k :: 0 <= k < i && Finishes(h0[k], def) ==> h0[k].id in s.toRemove)
    && (forall x :: x in s.toRemove ==> x in IdsOf(h0))
    && (|s.toRemove| > 0 ==> exists k :: 0 <= k < i && (Qualifies(h0, body, h0[k]) || Finishes(h0[k], def)))
  }

  ghost predicate ScanInv(h0: seq<Hediff>, body: Body, def: DefId, template: Hediff, n0: nat, s: ScanState, i: nat, src: seq<nat>)
  {
    ScanCur(h0, def, s, i) && ScanAdds(h0, body, def, template, n0, s, i, src) && ScanRemoves(h0, body, def, s, i)
  }

  lemma ScanCurShape(h0: seq<Hediff>, def: DefId, s: ScanState, i: nat)
    requires ScanCur(h0, def, s, i)
    ensures SameShape(s.cur, h0)
  {
  }

  /** The queues after the qualification branch of one iteration, before the severity bump. */
  function QueueStep(body: Body, def: DefId, template: Hediff, s: ScanState, i: nat): (r: ScanState)
    requires i < |s.cur|
    ensures r.cur == s.cur
  {
    var h := s.cur[i];
    if Qualifies(s.cur, body, h) then
      var target := CureTarget(s.cur, body);
      var queued := s.toRemove + (if target.Some? then [target.value.id] else []);
      if NoneOnPathToRoot(s.cur, body, def, h.part.value) then
        ScanState(s.cur, queued + [h.id], s.toAdd + [NewRegrowth(template, def, s.nextId, h.part)], s.nextId + 1)
      else s.(toRemove := queued)
    else s
  }

  lemma ScanStepSplit(body: Body, def: DefId, template: Hediff, s: ScanState, i: nat)
    requires i < |s.cur|
    ensures var s1 := QueueStep(body, def, template, s, i);
            var h := s.cur[i];
            ScanStep(body, def, template, s, i)
              == if h.def == def then
                   s1.(cur := s1.cur[i := Bumped(h, def)],
                       toRemove := s1.toRemove + (if h.severity + 10 >= 100 then [h.id] else []))
                 else s1
  {
  }

  lemma StepCur(h0: seq<Hediff>, body: Body, def: DefId, template: Hediff, s: ScanState, i: nat)
    requires ScanCur(h0, def, s, i) && i < |h0|
    ensures ScanCur(h0, def, ScanStep(body, def, template, s, i), i + 1)
  {
    ScanStepSplit(body, def, template, s, i);
  }

  lemma StepAdds(h0: seq<Hediff>, body: Body, def: DefId, template: Hediff, n0: nat, s: ScanState, i: nat, src: seq<nat>)
    returns (src': seq<nat>)
    requires ScanCur(h0, def, s, i) && ScanAdds(h0, body, def, template, n0, s, i, src) && i < |h0|
    ensures ScanAdds(h0, body, def, template, n0, ScanStep(body, def, template, s, i), i + 1, src')
  {
    ScanStepSplit(body, def, template, s, i);
    var h := s.cur[i];
    assert h == h0[i];
    ScanCurShape(h0, def, s, i);
    ShapeKeepsQualification(s.cur, h0, body, def, h);
    var s1 := QueueStep(body, def, template, s, i);
    if StartsRegrowing(s.cur, body, def, h) {
      src' := src + [i];
      assert s1.toAdd == s.toAdd + [NewRegrowth(template, def, s.nextId, h.part)];
    } else {
      src' := src;
      assert s1.toAdd == s.toAdd && s1.nextId == s.nextId;
    }
  }

  /** What the qualification branch appends to the removal queue. */
  lemma QueueStepRemovals(body: Body, def: DefId, template: Hediff, s: ScanState, i: nat) returns (e: seq<nat>)
    requires i < |s.cur|
    ensures var s1 := QueueStep(body, def, template, s, i);
            s1.toRemove == s.toRemove + e
            && (|e| > 0 ==> Qualifies(s.cur, body, s.cur[i]))
            && (forall x :: x in e ==> x in IdsOf(s.cur))
            && (StartsRegrowing(s.cur, body, def, s.cur[i]) ==>
                  s.cur[i].id in e && s1.toAdd == s.toAdd + [NewRegrowth(template, def, s.nextId, s.cur[i].part)])
            && (!StartsRegrowing(s.cur, body, def, s.cur[i]) ==> s1.toAdd == s.toAdd && s1.nextId == s.nextId)
  {
    var h := s.cur[i];
    assert h.id in IdsOf(s.cur);
    if Qualifies(s.cur, body, h) {
      var target := CureTarget(s.cur, body);
      var t: seq<nat> := [];
      if target.Some? {
        var k :| 0 <= k < |s.cur| && s.cur[k] == target.value;
        assert target.value.id in IdsOf(s.cur);
        t := [target.value.id];
      }
      e := if NoneOnPathToRoot(s.cur, body, def, h.part.value) then t + [h.id] else t;
    } else {
      e := [];
    }
  }

  /** ScanRemoves carries over to a state whose queues grew as one iteration grows them. */
  lemma RemovesCarryOver(h0: seq<Hediff>, body: Body, def: DefId, s: ScanState, r: ScanState, i: nat, e: seq<nat>)
    requires ScanRemoves(h0, body, def, s, i) && i < |h0|
    requires r.toRemove == s.toRemove + e
    requires forall x :: x in e ==> x in IdsOf(h0)
    requires |e| > 0 ==> Qualifies(h0, body, h0[i]) || Finishes(h0[i], def)
    requires StartsRegrowing(h0, body, def, h0[i]) ==> h0[i].id in e && h0[i].part in PartsOf(r.toAdd)
    requires Finishes(h0[i], def) ==> h0[i].id in e
    requires PartsOf(s.toAdd) <= PartsOf(r.toAdd)
    ensures ScanRemoves(h0, body, def, r, i + 1)
  {
    forall k | 0 <= k < i + 1 && StartsRegrowing(h0, body, def, h0[k])
      ensures h0[k].id in r.toRemove && h0[k].part in PartsOf(r.toAdd)
    {
      if k < i {
        assert h0[k].id in s.toRemove;
      }
    }
    forall k | 0 <= k < i + 1 && Finishes(h0[k], def)
      ensures h0[k].id in r.toRemove
    {
      if k < i {
        assert h0[k].id in s.toRemove;
      }
    }
    if |r.toRemove| > 0 {
      if |s.toRemove| > 0 {
        var k :| 0 <= k < i && (Qualifies(h0, body, h0[k]) || Finishes(h0[k], def));
        assert 0 <= k < i + 1;
      } else {
        assert Qualifies(h0, body, h0[i]) || Finishes(h0[i], def);
      }
    }
  }

  lemma PartsOfGrows(a: seq<Hediff>, b: seq<Hediff>)
    requires a <= b
    ensures PartsOf(a) <= PartsOf(b)
  {
    forall k | 0 <= k < |a| ensures a[k].part in PartsOf(b) {
      assert b[k] == a[k];
    }
  }

  /** What one iteration appends to the removal queue, in terms of the current list. */
  lemma StepRemovals(body: Body, def: DefId, template: Hediff, s: ScanState, i: nat) returns (e: seq<nat>)
    requires i < |s.cur|
    ensures var r := ScanStep(body, def, template, s, i);
            var h := s.cur[i];
            r.toRemove == s.toRemove + e
            && (forall x :: x in e ==> x in IdsOf(s.cur))
            && (|e| > 0 ==> Qualifies(s.cur, body, h) || Finishes(h, def))
            && (StartsRegrowing(s.cur, body, def, h) ==> h.id in e && h.part in PartsOf(r.toAdd))
            && (Finishes(h, def) ==> h.id in e)
            && PartsOf(s.toAdd) <= PartsOf(r.toAdd)
  {
    ScanStepSplit(body, def, template, s, i);
    var h := s.cur[i];
    assert h.id in IdsOf(s.cur);
    var s1 := QueueStep(body, def, template, s, i);
    var e1 := QueueStepRemovals(body, def, template, s, i);
    var r := ScanStep(body, def, template, s, i);
    var e2: seq<nat> := if Finishes(h, def) then [h.id] else [];
    e := e1 + e2;
    assert r.toRemove == s.toRemove + e;
    assert r.toAdd == s1.toAdd;
    PartsOfGrows(s.toAdd, r.toAdd);
    if StartsRegrowing(s.cur, body, def, h) {
      assert r.toAdd[|s.toAdd|].part == h.part;
    }
  }

  lemma StepRemoves(h0: seq<Hediff>, body: Body, def: DefId, template: Hediff, s: ScanState, i: nat)
    requires ScanCur(h0, def, s, i) && ScanRemoves(h0, body, def, s, i) && i < |h0|
    ensures ScanRemoves(h0, body, def, ScanStep(body, def, template, s, i), i + 1)
  {
    var h := s.cur[i];
    assert h == h0[i];
    ScanCurShape(h0, def, s, i);
    ShapeKeepsQualification(s.cur, h0, body, def, h);
    assert IdsOf(s.cur) == IdsOf(h0) by {
      assert forall k :: 0 <= k < |h0| ==> s.cur[k].id == h0[k].id;
    }
    var e := StepRemovals(body, def, template, s, i);
    RemovesCarryOver(h0, body, def, s, ScanStep(body, def, template, s, i), i, e);
  }

  /** ScanInv as one fact, so that the induction below carries it whole. */
  ghost predicate ScanHolds(h0: seq<Hediff>, body: Body, def: DefId, template: Hediff, n0: nat, s: ScanState, i: nat, src: seq<nat>)
  {
    ScanInv(h0, body, def, template, n0, s, i, src)
  }

  /** One iteration keeps the invariant; the next state is named without unfolding ScanStep for the caller. */
  lemma ScanInvStep(h0: seq<Hediff>, body: Body, def: DefId, template: Hediff, n0: nat, s: ScanState, i: nat, src: seq<nat>)
    returns (s': ScanState, src': seq<nat>)
    requires ScanHolds(h0, body, def, template, n0, s, i, src) && i < |h0| == |s.cur|
    ensures |s'.cur| == |h0| && ScanHolds(h0, body, def, template, n0, s', i + 1, src')
    ensures ScanFrom(body, def, template, s, i) == ScanFrom(body, def, template, s', i + 1)
  {
    StepCur(h0, body, def, template, s, i);
    src' := StepAdds(h0, body, def, template, n0, s, i, src);
    StepRemoves(h0, body, def, template, s, i);
    s' := ScanStep(body, def, template, s, i);
  }

  /** The invariant holds after the whole scan; the loop walks the iterations one at a time. */
  lemma ScanFacts(h0: seq<Hediff>, body: Body, def: DefId, template: Hediff, n0: nat) returns (src: seq<nat>)
    ensures ScanInv(h0, body, def, template, n0, Scan(h0, body, def, template, n0), |h0|, src)
  {
    var s := ScanState(h0, [], [], n0);
    var i := 0;
    src := [];
    while i < |h0|
      invariant i <= |h0| == |s.cur| && ScanHolds(h0, body, def, template, n0, s, i, src)
      invariant Scan(h0, body, def, template, n0) == ScanFrom(body, def, template, s, i)
      decreases |h0| - i
    {
      s, src := ScanInvStep(h0, body, def, template, n0, s, i, src);
      i := i + 1;
    }
    assert ScanFrom(body, def, template, s, i) == s;
  }

  // ---------------------------------------------------------------------
  // Properties of one regeneration pass
  // ---------------------------------------------------------------------

  function BumpedAll(hs: seq<Hediff>, def: DefId): (r: seq<Hediff>)
    ensures |r| == |hs| && forall k :: 0 <= k < |hs| ==> r[k] == Bumped(hs[k], def)
  {
    seq(|hs|, k requires 0 <= k < |hs| => Bumped(hs[k], def))
  }

  /** The outcome in terms of h0: the bumped list without the removed ids, then the new regrowths. */
  lemma RegenerateShape(h0: seq<Hediff>, body: Body, def: DefId, template: Hediff, n0: nat)
    requires UniqueIds(h0)
    ensures var f := Scan(h0, body, def, template, n0);
            && Regenerate(h0, body, def, template, n0)
                 == Outcome(Without(BumpedAll(h0, def), IdSet(f.toRemove)) + f.toAdd, f.nextId)
            && f.nextId == n0 + |f.toAdd|
            && (forall t :: 0 <= t < |f.toAdd| ==> f.toAdd[t] == NewRegrowth(template, def, n0 + t, f.toAdd[t].part))
            && (forall k :: 0 <= k < |h0| && StartsRegrowing(h0, body, def, h0[k]) ==>
                  h0[k].id in IdSet(f.toRemove) && h0[k].part in PartsOf(f.toAdd))
            && (forall k :: 0 <= k < |h0| && Finishes(h0[k], def) ==> h0[k].id in IdSet(f.toRemove))
            && (|f.toAdd| > 0 ==> exists k :: 0 <= k < |h0| && Qualifies(h0, body, h0[k]))
            && (|f.toRemove| > 0 ==> exists k :: 0 <= k < |h0| && (Qualifies(h0, body, h0[k]) || Finishes(h0[k], def)))
  {
    var src := ScanFacts(h0, body, def, template, n0);
    var f := Scan(h0, body, def, template, n0);
    assert f.cur == BumpedAll(h0, def);
    assert UniqueIds(f.cur) by {
      assert forall k :: 0 <= k < |h0| ==> f.cur[k].id == h0[k].id;
    }
    RemoveAllIsWithout(f.cur, f.toRemove);
    if |f.toAdd| > 0 {
      assert StartsRegrowing(h0, body, def, h0[src[0]]);
    }
  }

  lemma KeptAreOld(h0: seq<Hediff>, def: DefId, ids: set<nat>, kept: seq<Hediff>)
    requires kept == Without(BumpedAll(h0, def), ids)
    ensures forall j :: 0 <= j < |kept| ==> kept[j].id !in ids && kept[j] in BumpedAll(h0, def) && kept[j].id in IdsOf(h0)
  {
    var b := BumpedAll(h0, def);
    forall j | 0 <= j < |kept| ensures kept[j].id in IdsOf(h0) {
      var k :| 0 <= k < |b| && b[k] == kept[j];
      assert b[k].id == h0[k].id;
    }
  }

  /** The kept old hediffs followed by regrowths with fresh consecutive ids. */
  ghost predicate PassResult(h0: seq<Hediff>, def: DefId, template: Hediff, n0: nat, ids: set<nat>, adds: seq<Hediff>, o: seq<Hediff>)
  {
    IdsBelow(h0, n0)
    && o == Without(BumpedAll(h0, def), ids) + adds
    && (forall t :: 0 <= t < |adds| ==> adds[t] == NewRegrowth(template, def, n0 + t, adds[t].part))
  }

  lemma UniqueAfterPass(h0: seq<Hediff>, def: DefId, template: Hediff, n0: nat, ids: set<nat>, adds: seq<Hediff>, o: seq<Hediff>)
    requires UniqueIds(h0) && PassResult(h0, def, template, n0, ids, adds, o)
    ensures UniqueIds(o) && IdsBelow(o, n0 + |adds|)
  {
    var b := BumpedAll(h0, def);
    assert UniqueIds(b) by {
      assert forall k :: 0 <= k < |h0| ==> b[k].id == h0[k].id;
    }
    var kept := Without(b, ids);
    WithoutKeepsUnique(b, ids);
    KeptAreOld(h0, def, ids, kept);
    assert forall j :: 0 <= j < |kept| ==> kept[j].id < n0;
    forall j, k | 0 <= j < k < |o| ensures o[j].id != o[k].id {
      if k < |kept| {
        assert o[j] == kept[j] && o[k] == kept[k];
      } else if j < |kept| {
        assert o[j] == kept[j] && o[k] == adds[k - |kept|];
      } else {
        assert o[j] == adds[j - |kept|] && o[k] == adds[k - |kept|];
      }
    }
    forall j | 0 <= j < |o| ensures o[j].id < n0 + |adds| {
      if j >= |kept| {
        assert o[j] == adds[j - |kept|];
      } else {
        assert o[j] == kept[j];
      }
    }
  }

  lemma GoneAfterPass(h0: seq<Hediff>, def: DefId, template: Hediff, n0: nat, ids: set<nat>, adds: seq<Hediff>, o: seq<Hediff>, id: nat)
    requires PassResult(h0, def, template, n0, ids, adds, o) && id in ids && id < n0
    ensures forall j :: 0 <= j < |o| ==> o[j].id != id
  {
    var kept := Without(BumpedAll(h0, def), ids);
    forall j | 0 <= j < |o| ensures o[j].id != id {
      if j >= |kept| {
        assert o[j] == adds[j - |kept|];
      } else {
        assert o[j] == kept[j];
      }
    }
  }

  lemma SurvivorsAfterPass(h0: seq<Hediff>, def: DefId, template: Hediff, n0: nat, ids: set<nat>, adds: seq<Hediff>, o: seq<Hediff>)
    requires PassResult(h0, def, template, n0, ids, adds, o)
    ensures forall j :: 0 <= j < |o| ==>
              if o[j].id < n0 then o[j] in BumpedAll(h0, def)
              else o[j] == NewRegrowth(template, def, o[j].id, o[j].part)
  {
    var kept := Without(BumpedAll(h0, def), ids);
    KeptAreOld(h0, def, ids, kept);
    forall j | 0 <= j < |o|
      ensures if o[j].id < n0 then o[j] in BumpedAll(h0, def) else o[j] == NewRegrowth(template, def, o[j].id, o[j].part)
    {
      if j < |kept| {
        assert o[j] == kept[j];
        assert o[j].id in IdsOf(h0);
      } else {
        assert o[j] == adds[j - |kept|];
      }
    }
  }

  /** A pass keeps hediff ids unique and below the id counter. */
  lemma RegenerationKeepsIdsUnique(h0: seq<Hediff>, body: Body, def: DefId, template: Hediff, n0: nat)
    requires UniqueIds(h0) && IdsBelow(h0, n0)
    ensures var o := Regenerate(h0, body, def, template, n0);
            UniqueIds(o.hediffs) && IdsBelow(o.hediffs, o.nextId) && o.nextId >= n0
  {
    RegenerateShape(h0, body, def, template, n0);
    var f := Scan(h0, body, def, template, n0);
    UniqueAfterPass(h0, def, template, n0, IdSet(f.toRemove), f.toAdd, Regenerate(h0, body, def, template, n0).hediffs);
  }

  /** A regrowable missing part is replaced: its hediff is gone and a regrowth of severity 0.01 sits on its part. */
  lemma MissingPartStartsRegrowing(h0: seq<Hediff>, body: Body, def: DefId, template: Hediff, n0: nat, k: nat)
    requires UniqueIds(h0) && IdsBelow(h0, n0) && k < |h0| && StartsRegrowing(h0, body, def, h0[k])
    ensures var o := Regenerate(h0, body, def, template, n0).hediffs;
            (forall j :: 0 <= j < |o| ==> o[j].id != h0[k].id)
            && exists j :: 0 <= j < |o| && o[j].part == h0[k].part && o[j].def == def && o[j].severity == 1
  {
    RegenerateShape(h0, body, def, template, n0);
    var f := Scan(h0, body, def, template, n0);
    var o := Regenerate(h0, body, def, template, n0).hediffs;
    var ids := IdSet(f.toRemove);
    assert h0[k].id in ids && h0[k].part in PartsOf(f.toAdd);
    GoneAfterPass(h0, def, template, n0, ids, f.toAdd, o, h0[k].id);
    var t :| 0 <= t < |f.toAdd| && f.toAdd[t].part == h0[k].part;
    var kept := Without(BumpedAll(h0, def), ids);
    assert o == kept + f.toAdd;
    var j := |kept| + t;
    assert o[j] == f.toAdd[t] == NewRegrowth(template, def, n0 + t, f.toAdd[t].part);
    assert o[j].part == h0[k].part && o[j].def == def && o[j].severity == 1;
  }

  /** A regrowth that reaches severity 1.00 in this pass is removed. */
  lemma FinishedRegrowthRemoved(h0: seq<Hediff>, body: Body, def: DefId, template: Hediff, n0: nat, k: nat)
    requires UniqueIds(h0) && IdsBelow(h0, n0) && k < |h0| && h0[k].def == def && h0[k].severity + 10 >= 100
    ensures var o := Regenerate(h0, body, def, template, n0).hediffs;
            forall j :: 0 <= j < |o| ==> o[j].id != h0[k].id
  {
    RegenerateShape(h0, body, def, template, n0);
    var f := Scan(h0, body, def, template, n0);
    assert Finishes(h0[k], def);
    GoneAfterPass(h0, def, template, n0, IdSet(f.toRemove), f.toAdd, Regenerate(h0, body, def, template, n0).hediffs, h0[k].id);
  }

  /**
   * Deferred mutation: every old hediff that survives has been bumped exactly
   * once, and every new hediff is a fresh regrowth of severity 0.01 that was
   * not bumped in the same pass.
   */
  lemma SurvivorsBumpedOnce(h0: seq<Hediff>, body: Body, def: DefId, template: Hediff, n0: nat)
    requires UniqueIds(h0) && IdsBelow(h0, n0)
    ensures var o := Regenerate(h0, body, def, template, n0).hediffs;
            forall j :: 0 <= j < |o| ==>
              if o[j].id < n0 then o[j] in BumpedAll(h0, def)
              else o[j] == NewRegrowth(template, def, o[j].id, o[j].part)
  {
    RegenerateShape(h0, body, def, template, n0);
    var f := Scan(h0, body, def, template, n0);
    SurvivorsAfterPass(h0, def, template, n0, IdSet(f.toRemove), f.toAdd, Regenerate(h0, body, def, template, n0).hediffs);
  }

  /** A pass with no regrowable missing part and no finishing regrowth only bumps severities. */
  lemma QuietPassOnlyBumps(h0: seq<Hediff>, body: Body, def: DefId, template: Hediff, n0: nat)
    requires UniqueIds(h0)
    requires forall k :: 0 <= k < |h0| ==> !Qualifies(h0, body, h0[k]) && !(h0[k].def == def && h0[k].severity + 10 >= 100)
    ensures Regenerate(h0, body, def, template, n0) == Outcome(BumpedAll(h0, def), n0)
  {
    RegenerateShape(h0, body, def, template, n0);
    var f := Scan(h0, body, def, template, n0);
    assert |f.toRemove| == 0;
    assert |f.toAdd| == 0;
    assert IdSet(f.toRemove) == {};
    WithoutNothing(BumpedAll(h0, def), {});
  }

  // ---------------------------------------------------------------------
  // Cure
  // ---------------------------------------------------------------------

  function CountOfDef(hs: seq<Hediff>, def: DefId): nat
  {
    if |hs| == 0 then 0 else (if hs[0].def == def then 1 else 0) + CountOfDef(hs[1..], def)
  }

  /** The hediffs of every other def, in order. */
  function OthersOf(hs: seq<Hediff>, def: DefId): seq<Hediff>
  {
    if |hs| == 0 then [] else (if hs[0].def == def then [] else [hs[0]]) + OthersOf(hs[1..], def)
  }

  /** HediffSet.GetFirstHediffOfDef (visible or not), as an index. */
  function FirstIndexOfDef(hs: seq<Hediff>, def: DefId): (r: Option<nat>)
    ensures r.Some? ==> r.value < |hs| && hs[r.value].def == def && forall j :: 0 <= j < r.value ==> hs[j].def != def
    ensures r.None? ==> forall j :: 0 <= j < |hs| ==> hs[j].def != def
  {
    if |hs| == 0 then None
    else if hs[0].def == def then Some(0)
    else
      var rest := FirstIndexOfDef(hs[1..], def);
      assert forall j :: 1 <= j < |hs| ==> hs[j] == hs[1..][j - 1];
      if rest.Some? then Some(rest.value + 1) else None
  }

  function RemoveAt(hs: seq<Hediff>, k: nat): seq<Hediff>
    requires k < |hs|
  {
    hs[..k] + hs[k + 1..]
  }

  /** Up to n rounds of "remove the first hediff of def", stopping early when none is left. */
  function RemoveOfDefUpTo(hs: seq<Hediff>, def: DefId, n: nat): seq<Hediff>
    decreases n
  {
    if n == 0 then hs
    else
      var first := FirstIndexOfDef(hs, def);
      if first.None? then hs else RemoveOfDefUpTo(RemoveAt(hs, first.value), def, n - 1)
  }

  /** Cure: remove the hediff; for a cure-all def, then remove at most 10000 more of its def. */
  function CureOutcome(hs: seq<Hediff>, h: Hediff): seq<Hediff>
  {
    var r := RemoveHediff(hs, h.id);
    if h.cureAllAtOnce then RemoveOfDefUpTo(r, h.def, 10000) else r
  }

  /** Cure logs "Too many iterations" when 10000 removals went by without running out. */
  predicate CureLogsTooMany(hs: seq<Hediff>, h: Hediff)
  {
    h.cureAllAtOnce && CountOfDef(RemoveHediff(hs, h.id), h.def) >= 10000
  }

  lemma {:induction false} CountSplit(a: seq<Hediff>, b: seq<Hediff>, def: DefId)
    ensures CountOfDef(a + b, def) == CountOfDef(a, def) + CountOfDef(b, def)
    ensures OthersOf(a + b, def) == OthersOf(a, def) + OthersOf(b, def)
  {
    if |a| > 0 {
      assert (a + b)[1..] == a[1..] + b;
      CountSplit(a[1..], b, def);
    } else {
      assert a + b == b;
    }
  }

  lemma RemoveAtOfDef(hs: seq<Hediff>, def: DefId, k: nat)
    requires k < |hs| && hs[k].def == def
    ensures CountOfDef(RemoveAt(hs, k), def) == CountOfDef(hs, def) - 1
    ensures OthersOf(RemoveAt(hs, k), def) == OthersOf(hs, def)
  {
    var a, m, c := hs[..k], [hs[k]], hs[k + 1..];
    assert hs == a + (m + c);
    assert RemoveAt(hs, k) == a + c;
    assert CountOfDef(m, def) == 1 && OthersOf(m, def) == [] by {
      assert m[1..] == [];
    }
    CountSplit(a, m + c, def);
    CountSplit(m, c, def);
    CountSplit(a, c, def);
  }

  lemma {:induction false} NoneOfDef(hs: seq<Hediff>, def: DefId)
    requires forall j :: 0 <= j < |hs| ==> hs[j].def != def
    ensures CountOfDef(hs, def) == 0 && OthersOf(hs, def) == hs
  {
    if |hs| > 0 {
      NoneOfDef(hs[1..], def);
    }
  }

  /** Each round removes one hediff of def while any is left, and nothing of another def. */
  lemma {:induction false} RemoveOfDefUpToCounts(hs: seq<Hediff>, def: DefId, n: nat)
    ensures CountOfDef(RemoveOfDefUpTo(hs, def, n), def) == if CountOfDef(hs, def) >= n then CountOfDef(hs, def) - n else 0
    ensures OthersOf(RemoveOfDefUpTo(hs, def, n), def) == OthersOf(hs, def)
    decreases n
  {
    if n > 0 {
      var first := FirstIndexOfDef(hs, def);
      if first.None? {
        NoneOfDef(hs, def);
      } else {
        RemoveAtOfDef(hs, def, first.value);
        RemoveOfDefUpToCounts(RemoveAt(hs, first.value), def, n - 1);
      }
    }
  }

  lemma {:induction false} RemoveOfDefUpToAdds(hs: seq<Hediff>, def: DefId, a: nat, b: nat)
    ensures RemoveOfDefUpTo(hs, def, a + b) == RemoveOfDefUpTo(RemoveOfDefUpTo(hs, def, a), def, b)
    decreases a
  {
    if a > 0 {
      var first := FirstIndexOfDef(hs, def);
      if first.Some? {
        RemoveOfDefUpToAdds(RemoveAt(hs, first.value), def, a - 1, b);
      } else if b > 0 {
        assert RemoveOfDefUpTo(hs, def, b) == hs;
      }
    }
  }

  /** A round of Cure's loop that finds a hediff of the def removes it as the next of the rounds. */
  lemma CureRound(r: seq<Hediff>, def: DefId, n: nat)
    requires CountOfDef(r, def) >= n
    requires FirstIndexOfDef(RemoveOfDefUpTo(r, def, n), def).Some?
    ensures var hs := RemoveOfDefUpTo(r, def, n);
            RemoveOfDefUpTo(r, def, n + 1) == RemoveAt(hs, FirstIndexOfDef(hs, def).value)
            && CountOfDef(r, def) >= n + 1
  {
    var hs := RemoveOfDefUpTo(r, def, n);
    RemoveOfDefUpToCounts(r, def, n);
    RemoveOfDefUpToAdds(r, def, n, 1);
    RemoveAtOfDef(hs, def, FirstIndexOfDef(hs, def).value);
  }

  /** A round of Cure's loop that finds none ends with the outcome of all 10000 rounds, fewer than 10000 removed. */
  lemma CureRoundsDone(r: seq<Hediff>, def: DefId, n: nat)
    requires n <= 10000 && CountOfDef(r, def) >= n
    requires FirstIndexOfDef(RemoveOfDefUpTo(r, def, n), def).None?
    ensures RemoveOfDefUpTo(r, def, 10000) == RemoveOfDefUpTo(r, def, n)
    ensures CountOfDef(r, def) == n
  {
    var hs := RemoveOfDefUpTo(r, def, n);
    RemoveOfDefUpToDone(hs, def, 10000 - n);
    RemoveOfDefUpToAdds(r, def, n, 10000 - n);
    NoneOfDef(hs, def);
    RemoveOfDefUpToCounts(r, def, n);
  }

  lemma RemoveOfDefUpToDone(hs: seq<Hediff>, def: DefId, n: nat)
    requires FirstIndexOfDef(hs, def).None?
    ensures RemoveOfDefUpTo(hs, def, n) == hs
  {
  }

  /** A cure-all cure of a def that has at most 10000 more hediffs leaves none of that def. */
  lemma CureAllRemovesEveryHediffOfDef(hs: seq<Hediff>, h: Hediff)
    requires h.cureAllAtOnce && CountOfDef(RemoveHediff(hs, h.id), h.def) <= 10000
    ensures CountOfDef(CureOutcome(hs, h), h.def) == 0
  {
    RemoveOfDefUpToCounts(RemoveHediff(hs, h.id), h.def, 10000);
  }

  /** With more than 10000 left, exactly 10000 are removed; with exactly 10000, all go and the error is still logged. */
  lemma CureAllStopsAtTenThousand(hs: seq<Hediff>, h: Hediff)
    requires h.cureAllAtOnce && CountOfDef(RemoveHediff(hs, h.id), h.def) >= 10000
    ensures CountOfDef(CureOutcome(hs, h), h.def) == CountOfDef(RemoveHediff(hs, h.id), h.def) - 10000
    ensures CureLogsTooMany(hs, h)
  {
    RemoveOfDefUpToCounts(RemoveHediff(hs, h.id), h.def, 10000);
  }

  lemma {:induction false} RemoveHediffOthers(hs: seq<Hediff>, h: Hediff)
    requires forall j :: 0 <= j < |hs| && hs[j].id == h.id ==> hs[j].def == h.def
    ensures OthersOf(RemoveHediff(hs, h.id), h.def) == OthersOf(hs, h.def)
  {
    if |hs| > 0 && hs[0].id != h.id {
      assert forall j :: 1 <= j < |hs| ==> hs[j] == hs[1..][j - 1];
      RemoveHediffOthers(hs[1..], h);
      assert RemoveHediff(hs, h.id) == [hs[0]] + RemoveHediff(hs[1..], h.id);
      CountSplit([hs[0]], RemoveHediff(hs[1..], h.id), h.def);
      CountSplit([hs[0]], hs[1..], h.def);
      assert hs == [hs[0]] + hs[1..];
    }
  }

  /** Curing never touches hediffs of another def. */
  lemma CureKeepsOtherDefs(hs: seq<Hediff>, h: Hediff)
    requires forall j :: 0 <= j < |hs| && hs[j].id == h.id ==> hs[j].def == h.def
    ensures OthersOf(CureOutcome(hs, h), h.def) == OthersOf(hs, h.def)
  {
    RemoveHediffOthers(hs, h);
    RemoveOfDefUpToCounts(RemoveHediff(hs, h.id), h.def, 10000);
  }

  // ---------------------------------------------------------------------
  // The pawn's hediff set
  // ---------------------------------------------------------------------

  class HediffSet {
    var hediffs: seq<Hediff>
    /** The game's hediff id counter, which HediffMaker draws from. */
    var nextHediffId: nat

    ghost predicate Valid()
      reads this
    {
      UniqueIds(hediffs) && IdsBelow(hediffs, nextHediffId)
    }

    constructor ()
      ensures hediffs == [] && nextHediffId == 0 && Valid()
    {
      hediffs := [];
      nextHediffId := 0;
    }

    /** NaturalRegenerationOfLimbs(pawn, hediffToAdd), called by the gene once an in-game hour. */
    method NaturalRegenerationOfLimbs(body: Body, hediffToAdd: DefId, template: Hediff)
      requires Valid()
      modifies this
      ensures Valid()
      ensures Outcome(hediffs, nextHediffId) == Regenerate(old(hediffs), body, hediffToAdd, template, old(nextHediffId))
    {
      ghost var h0 := hediffs;
      var toRemove: seq<nat> := [];
      var toAdd: seq<Hediff> := [];
      var i := 0;
      while i < |hediffs|
        invariant 0 <= i <= |hediffs| == |h0|
        invariant ScanFrom(body, hediffToAdd, template, ScanState(hediffs, toRemove, toAdd, nextHediffId), i)
                  == Scan(h0, body, hediffToAdd, template, old(nextHediffId))
        decreases |hediffs| - i
      {
        toRemove, toAdd := ScanHediff(body, hediffToAdd, template, i, toRemove, toAdd);
        i := i + 1;
      }
      RemoveQueued(toRemove);
      AddQueued(toAdd);
      RegenerationKeepsIdsUnique(h0, body, hediffToAdd, template, old(nextHediffId));
    }

    /** One iteration of the scan over the hediff list: queue removals and additions, bump a regrowth in place. */
    method ScanHediff(body: Body, hediffToAdd: DefId, template: Hediff, i: nat, toRemove: seq<nat>, toAdd: seq<Hediff>)
      returns (toRemove': seq<nat>, toAdd': seq<Hediff>)
      requires i < |hediffs|
      modifies this
      ensures ScanState(hediffs, toRemove', toAdd', nextHediffId)
              == ScanStep(body, hediffToAdd, template, ScanState(old(hediffs), toRemove, toAdd, old(nextHediffId)), i)
    {
      ghost var s0 := ScanState(hediffs, toRemove, toAdd, nextHediffId);
      toRemove', toAdd' := QueueForMissingPart(body, hediffToAdd, template, i, toRemove, toAdd);
      ScanStepSplit(body, hediffToAdd, template, s0, i);
      var hediff := hediffs[i];
      if hediff.def == hediffToAdd {
        var bumped := hediff.(severity := hediff.severity + 10);
        hediffs := hediffs[i := bumped];
        if bumped.severity >= 100 {
          toRemove' := toRemove' + [hediff.id];
        }
      }
    }

    /** The first half of an iteration: a regrowable missing part queues a cure and, if nothing regrows above it, a regrowth. */
    method QueueForMissingPart(body: Body, hediffToAdd: DefId, template: Hediff, i: nat, toRemove: seq<nat>, toAdd: seq<Hediff>)
      returns (toRemove': seq<nat>, toAdd': seq<Hediff>)
      requires i < |hediffs|
      modifies this`nextHediffId
      ensures ScanState(hediffs, toRemove', toAdd', nextHediffId)
              == QueueStep(body, hediffToAdd, template, ScanState(hediffs, toRemove, toAdd, old(nextHediffId)), i)
    {
      toRemove', toAdd' := toRemove, toAdd;
      var hediff := hediffs[i];
      if hediff.kind.MissingPart? && hediff.part.Some?
         && !PartIsMissing(hediffs, ParentOf(body, hediff.part.value))
         && !PartOrAnyAncestorHasDirectlyAddedParts(hediffs, body, hediff.part.value)
      {
        var flag := NoRegrowthOnPathToRoot(body, hediff.part.value, hediffToAdd);
        var hediff1 := FindImmunizableHediffWhichCanKill(hediffs);
        var hediff2 := FindNonInjuryMiscBadHediff(hediffs, body, true);
        var hediff3 := FindNonInjuryMiscBadHediff(hediffs, body, false);
        if hediff1.Some? || hediff2.Some? || hediff3.Some? {
          var pick := if hediff1.Some? then hediff1.value else if hediff2.Some? then hediff2.value else hediff3.value;
          assert CureTarget(hediffs, body) == Some(pick);
          toRemove' := toRemove' + [pick.id];
        } else {
          assert CureTarget(hediffs, body).None?;
        }
        if flag {
          var newHediff := NewRegrowth(template, hediffToAdd, nextHediffId, hediff.part);
          nextHediffId := nextHediffId + 1;
          toAdd' := toAdd' + [newHediff];
          toRemove' := toRemove' + [hediff.id];
        }
      }
    }

    /** The ancestor walk: climb from the part to the root until a part carrying hediffToAdd is found. */
    method NoRegrowthOnPathToRoot(body: Body, p: nat, hediffToAdd: DefId) returns (flag: bool)
      ensures flag == NoneOnPathToRoot(hediffs, body, hediffToAdd, p)
    {
      var part: Option<nat> := Some(p);
      flag := true;
      while part.Some?
        invariant part.Some? ==>
                    flag && NoneOnPathToRoot(hediffs, body, hediffToAdd, p) == NoneOnPathToRoot(hediffs, body, hediffToAdd, part.value)
        invariant part.None? ==> flag == NoneOnPathToRoot(hediffs, body, hediffToAdd, p)
        decreases if part.Some? then part.value + 1 else 0
      {
        if HasHediffOn(hediffs, part.value, hediffToAdd) {
          flag := false;
          part := None;
        } else {
          part := ParentOf(body, part.value);
        }
      }
    }

    /** The removal loop: pawn.health.RemoveHediff for each queued hediff, in order. */
    method RemoveQueued(toRemove: seq<nat>)
      modifies this`hediffs
      ensures hediffs == RemoveAll(old(hediffs), toRemove)
    {
      var j := 0;
      while j < |toRemove|
        invariant 0 <= j <= |toRemove|
        invariant RemoveAll(hediffs, toRemove[j..]) == RemoveAll(old(hediffs), toRemove)
      {
        assert toRemove[j..][1..] == toRemove[j + 1..];
        hediffs := RemoveHediff(hediffs, toRemove[j]);
        j := j + 1;
      }
    }

    /** The addition loop: pawn.health.AddHediff for each queued regrowth, in order. */
    method AddQueued(toAdd: seq<Hediff>)
      modifies this`hediffs
      ensures hediffs == old(hediffs) + toAdd
    {
      var k := 0;
      while k < |toAdd|
        invariant 0 <= k <= |toAdd| && hediffs == old(hediffs) + toAdd[..k]
      {
        hediffs := hediffs + [toAdd[k]];
        k := k + 1;
      }
      assert toAdd[..k] == toAdd;
    }

    /** Cure(hediff); returns whether the "Too many iterations" error is logged. */
    method Cure(h: Hediff) returns (tooManyIterations: bool)
      modifies this`hediffs
      ensures hediffs == CureOutcome(old(hediffs), h)
      ensures tooManyIterations == CureLogsTooMany(old(hediffs), h)
    {
      hediffs := RemoveHediff(hediffs, h.id);
      tooManyIterations := false;
      if h.cureAllAtOnce {
        ghost var r := hediffs;
        var num := 0;
        while true
          invariant 0 <= num <= 10000
          invariant hediffs == RemoveOfDefUpTo(r, h.def, num)
          invariant CountOfDef(r, h.def) >= num
          invariant !tooManyIterations
          decreases 10000 - num
        {
          num := num + 1;
          if num > 10000 {
            tooManyIterations := true;
            break;
          }
          var first := FirstIndexOfDef(hediffs, h.def);
          if first.None? {
            CureRoundsDone(r, h.def, num - 1);
            break;
          }
          CureRound(r, h.def, num - 1);
          hediffs := RemoveAt(hediffs, first.value);
        }
      }
    }
  }
}
