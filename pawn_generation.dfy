/**
 * One generation attempt (TryGenerateNewPawnInternal) and the retry ladder
 * around it (GenerateNewPawnInternal). An attempt pushes a session, lets
 * the pawns it generates along the way (relatives, say) record themselves,
 * runs the acceptance checks in order, and on success records its pawn in
 * every enclosing session; on most failures it discards its pawn and the
 * pawns generated in the meantime. The session is popped on every exit.
 *
 * What the attempt builds (gear, body, story, relations) is not modelled:
 * the facts the checks read are given per attempt.
 */
module PawnGeneration {
  import opened Wrappers
  import opened Seqs
  import opened PawnSessions
  import PawnSkills

  /** The fields of PawnGenerationRequest the checks read; `validatorPreGear` and `validatorPostGear` say whether one is set. */
  datatype GenRequest = GenRequest(
    allowDead: bool, forceDead: bool, allowDowned: bool, mustBeCapableOfViolence: bool,
    kindRequiredWorkTags: set<nat>, kindMinBestSkillLevel: int, kindMinTotalSkillLevels: int,
    playerStarterWithScenario: bool, validatorPreGear: bool, validatorPostGear: bool)

  /** What one attempt produced and what the checks find out about it. */
  datatype AttemptFacts = AttemptFacts(
    pawn: PawnId,
    /** Pawns generated successfully by nested generations during this attempt, in order. */
    nested: seq<PawnId>,
    dead: bool, destroyed: bool, downed: bool,
    hasStory: bool, violentDisabled: bool, isMechanoid: bool, toolUser: bool, capableOfManipulation: bool,
    /** For each of the kind's skills, whether the pawn is totally incapable of it. */
    kindSkillTotallyDisabled: seq<bool>,
    combinedDisabledWorkTags: set<nat>,
    skillLevels: seq<PawnSkills.SkillLevel>,
    scenarioAllows: bool, passesPreGear: bool, passesPostGear: bool,
    /** The request as the attempt leaves it (it is passed by reference). */
    requestAfter: GenRequest)

  datatype ErrorKind =
    | GeneratedDead | GeneratedDowned | IncapableOfViolence | IncapableOfRequiredSkill
    | DisabledRequiredWorkTags | BestSkillTooLow | BadSkills | ScenarioRequirements
    | FailedPreGearValidator | FailedPostGearValidator

  /** Every failure but a required skill the pawn cannot do discards the pawn. */
  predicate Discards(e: ErrorKind)
  {
    e != IncapableOfRequiredSkill
  }

  predicate AnyTrue(bs: seq<bool>)
  {
    exists i :: 0 <= i < |bs| && bs[i]
  }

  /** The checks of an attempt, in order; the first that fails names the error. */
  function Verdict(req: GenRequest, f: AttemptFacts, ignoreScenario: bool, ignoreValidator: bool): Option<ErrorKind>
  {
    if !req.allowDead && !req.forceDead && (f.dead || f.destroyed) then Some(GeneratedDead)
    else if !req.allowDowned && !req.forceDead && f.downed then Some(GeneratedDowned)
    else if req.mustBeCapableOfViolence &&
            ((f.hasStory && f.violentDisabled) || (!f.isMechanoid && f.toolUser && !f.capableOfManipulation))
    then Some(IncapableOfViolence)
    else if AnyTrue(f.kindSkillTotallyDisabled) then Some(IncapableOfRequiredSkill)
    else if req.kindRequiredWorkTags != {} && f.combinedDisabledWorkTags * req.kindRequiredWorkTags != {} then Some(DisabledRequiredWorkTags)
    else if !PawnSkills.HasCorrectMinBestSkillLevel(f.skillLevels, req.kindMinBestSkillLevel) then Some(BestSkillTooLow)
    else if !PawnSkills.HasCorrectMinTotalSkillLevels(f.skillLevels, req.kindMinTotalSkillLevels) then Some(BadSkills)
    else if !ignoreScenario && req.playerStarterWithScenario && !f.scenarioAllows then Some(ScenarioRequirements)
    else if !ignoreValidator && req.validatorPreGear && !f.passesPreGear then Some(FailedPreGearValidator)
    else if !ignoreValidator && req.validatorPostGear && !f.passesPostGear then Some(FailedPostGearValidator)
    else None
  }

  /** What a passing verdict guarantees, and what the relaxation flags rule out. */
  lemma VerdictMeaning(req: GenRequest, f: AttemptFacts, ignoreScenario: bool, ignoreValidator: bool)
    ensures Verdict(req, f, ignoreScenario, ignoreValidator).None? ==> (req.allowDead || req.forceDead || (!f.dead && !f.destroyed))
    ensures Verdict(req, f, ignoreScenario, ignoreValidator).None? ==> !AnyTrue(f.kindSkillTotallyDisabled)
    ensures Verdict(req, f, ignoreScenario, ignoreValidator).None? && 0 < req.kindMinTotalSkillLevels ==> PawnSkills.Sum(f.skillLevels) >= req.kindMinTotalSkillLevels
    ensures Verdict(req, f, ignoreScenario, ignoreValidator).None? && !ignoreValidator ==> (!req.validatorPreGear || f.passesPreGear) && (!req.validatorPostGear || f.passesPostGear)
    ensures ignoreScenario ==> Verdict(req, f, ignoreScenario, ignoreValidator) != Some(ScenarioRequirements)
    ensures ignoreValidator ==> Verdict(req, f, ignoreScenario, ignoreValidator) != Some(FailedPreGearValidator) && Verdict(req, f, ignoreScenario, ignoreValidator) != Some(FailedPostGearValidator)
  {
    PawnSkills.TotalSkillCheck(f.skillLevels, req.kindMinTotalSkillLevels);
  }

  /** Relaxing the scenario or validator requirements never turns a passing attempt into a failing one. */
  lemma RelaxingKeepsSuccess(req: GenRequest, f: AttemptFacts, s0: bool, v0: bool, s1: bool, v1: bool)
    requires (s0 ==> s1) && (v0 ==> v1)
    requires Verdict(req, f, s0, v0).None?
    ensures Verdict(req, f, s1, v1).None?
  {
  }

  // ---------------------------------------------------------------------
  // The sessions during an attempt

  /** The sessions after the nested pawns `qs` each record themselves in every open session. */
  function WithNested(ss: seq<Session>, qs: seq<PawnId>): (r: seq<Session>)
    ensures |r| == |ss|
    ensures forall k :: 0 <= k < |ss| ==> ListOf(r[k]) == ListOf(ss[k]) + qs
    ensures forall k :: 0 <= k < |ss| ==> r[k].pawn == ss[k].pawn && r[k].allowsDead == ss[k].allowsDead
    ensures forall k :: 0 <= k < |ss| ==> r[k].meantime.Some? == (ss[k].meantime.Some? || |qs| > 0)
  {
    seq(|ss|, k requires 0 <= k < |ss| =>
      if |qs| == 0 then ss[k] else ss[k].(meantime := Some(ListOf(ss[k]) + qs)))
  }

  /** A nested success is pushed, recorded in everything below it and popped. */
  lemma NestedStep(ss: seq<Session>, qs: seq<PawnId>, q: PawnId)
    ensures Recorded(WithNested(ss, qs) + [Session(q, None, false)], q)[..|ss|] == WithNested(ss, qs + [q])
  {
    var a := Recorded(WithNested(ss, qs) + [Session(q, None, false)], q)[..|ss|];
    var b := WithNested(ss, qs + [q]);
    assert |a| == |b|;
    forall k | 0 <= k < |ss| ensures a[k] == b[k] {
      assert ListOf(WithNested(ss, qs)[k]) + [q] == ListOf(ss[k]) + (qs + [q]);
    }
  }

  lemma WithNestedKeepsPrefix(ss: seq<Session>, qs: seq<PawnId>)
    requires AllocatedPrefix(ss)
    ensures AllocatedPrefix(WithNested(ss, qs))
  {
  }

  /** The generator's state: the session stack, the world pawns and the discard log. */
  datatype StackState = StackState(sessions: seq<Session>, world: set<PawnId>, discarded: seq<PawnId>)

  /** The attempt's session when pushed. */
  function AttemptSession(req: GenRequest, f: AttemptFacts): Session
  {
    Session(f.pawn, None, req.forceDead || req.allowDead)
  }

  /** The sessions once the attempt's own session is pushed and its nested pawns have recorded themselves. */
  function BeforeChecks(ss: seq<Session>, req: GenRequest, f: AttemptFacts): (r: seq<Session>)
    ensures |r| == |ss| + 1
    ensures ListOf(r[|ss|]) == f.nested
  {
    WithNested(ss + [AttemptSession(req, f)], f.nested)
  }

  /** The state after TryGenerateNewPawnInternal, the attempt's session popped. */
  function AttemptEffect(st: StackState, req: GenRequest, f: AttemptFacts, ignoreScenario: bool, ignoreValidator: bool): StackState
  {
    var s2 := BeforeChecks(st.sessions, req, f);
    var n := |st.sessions|;
    match Verdict(req, f, ignoreScenario, ignoreValidator)
    case None => StackState(Recorded(s2, f.pawn)[..n], st.world, st.discarded)
    case Some(e) =>
      if Discards(e) then
        StackState(RemoveAllOf(s2, f.nested)[..n], st.world - {f.pawn} - Elements(f.nested), st.discarded + [f.pawn] + f.nested)
      else StackState(s2[..n], st.world, st.discarded)
  }

  /** Every exit leaves the stack as high as it found it. */
  lemma AttemptRestoresHeight(st: StackState, req: GenRequest, f: AttemptFacts, s: bool, v: bool)
    ensures |AttemptEffect(st, req, f, s, v).sessions| == |st.sessions|
  {
  }

  /** On success every enclosing list gains the nested pawns and then the new pawn, and nothing is discarded. */
  lemma SuccessRecordsInEnclosing(st: StackState, req: GenRequest, f: AttemptFacts, s: bool, v: bool)
    requires Verdict(req, f, s, v).None?
    ensures var after := AttemptEffect(st, req, f, s, v);
      after.world == st.world && after.discarded == st.discarded
      && forall k :: 0 <= k < |st.sessions| ==> ListOf(after.sessions[k]) == ListOf(st.sessions[k]) + f.nested + [f.pawn]
  {
    var s2 := BeforeChecks(st.sessions, req, f);
    forall k | 0 <= k < |st.sessions|
      ensures ListOf(Recorded(s2, f.pawn)[k]) == ListOf(st.sessions[k]) + f.nested + [f.pawn]
    {
      assert ListOf(s2[k]) == ListOf(st.sessions[k]) + f.nested;
    }
  }

  /**
   * A discarding failure hands the pawn and every nested pawn to the world
   * for discard and, when the nested pawns are distinct and new to the
   * enclosing lists, leaves every enclosing list as it was.
   */
  lemma DiscardRestoresEnclosing(st: StackState, req: GenRequest, f: AttemptFacts, s: bool, v: bool)
    requires Verdict(req, f, s, v).Some? && Discards(Verdict(req, f, s, v).value)
    requires Distinct(f.nested)
    requires forall k :: 0 <= k < |st.sessions| ==> forall x :: x in f.nested ==> x !in ListOf(st.sessions[k])
    ensures var after := AttemptEffect(st, req, f, s, v);
      after.discarded == st.discarded + [f.pawn] + f.nested
      && after.world == st.world - {f.pawn} - Elements(f.nested)
      && forall k :: 0 <= k < |st.sessions| ==> ListOf(after.sessions[k]) == ListOf(st.sessions[k])
  {
    var s2 := BeforeChecks(st.sessions, req, f);
    var r := RemoveAllOf(s2, f.nested);
    forall k | 0 <= k < |st.sessions| ensures ListOf(r[k]) == ListOf(st.sessions[k]) {
      assert ListOf(s2[k]) == ListOf(st.sessions[k]) + f.nested;
      if s2[k].meantime.Some? {
        RemoveEachAppended(ListOf(st.sessions[k]), f.nested);
      } else {
        assert ListOf(st.sessions[k]) == [] && f.nested == [];
      }
    }
  }

  /**
   * The required-skill failure returns without discarding: the pawn and the
   * nested pawns stay out of the discard log and the nested pawns stay in
   * every enclosing list.
   */
  lemma RequiredSkillFailureLeaks(st: StackState, req: GenRequest, f: AttemptFacts, s: bool, v: bool)
    requires Verdict(req, f, s, v) == Some(IncapableOfRequiredSkill)
    ensures var after := AttemptEffect(st, req, f, s, v);
      after.discarded == st.discarded && after.world == st.world
      && forall k :: 0 <= k < |st.sessions| ==> ListOf(after.sessions[k]) == ListOf(st.sessions[k]) + f.nested
  {
  }

  lemma AttemptKeepsPrefix(st: StackState, req: GenRequest, f: AttemptFacts, s: bool, v: bool)
    requires AllocatedPrefix(st.sessions)
    ensures AllocatedPrefix(AttemptEffect(st, req, f, s, v).sessions)
  {
    var s1 := st.sessions + [AttemptSession(req, f)];
    assert AllocatedPrefix(s1);
    WithNestedKeepsPrefix(s1, f.nested);
    var s2 := BeforeChecks(st.sessions, req, f);
    RecordedKeepsPrefix(s2, f.pawn);
  }

  /** The nested generations: each pushes its session, records its pawn and pops. */
  method NestedGenerations(stack: PawnGenerationStack, qs: seq<PawnId>)
    modifies stack`sessions
    ensures stack.sessions == WithNested(old(stack.sessions), qs)
  {
    ghost var start := stack.sessions;
    assert stack.sessions == WithNested(start, []);
    for i := 0 to |qs|
      invariant stack.sessions == WithNested(start, qs[..i])
    {
      stack.Push(Session(qs[i], None, false));
      stack.RecordSuccess(qs[i]);
      stack.Pop();
      NestedStep(start, qs[..i], qs[i]);
      assert qs[..i + 1] == qs[..i] + [qs[i]];
    }
    assert qs[..|qs|] == qs;
  }

  function StateOf(stack: PawnGenerationStack): StackState
    reads stack
  {
    StackState(stack.sessions, stack.worldPawns, stack.discarded)
  }

  /** TryGenerateNewPawnInternal. */
  method TryGenerateNewPawnInternal(stack: PawnGenerationStack, req: GenRequest, f: AttemptFacts, ignoreScenario: bool, ignoreValidator: bool)
    returns (result: Option<PawnId>, error: Option<ErrorKind>)
    requires AllocatedPrefix(stack.sessions)
    modifies stack
    ensures StateOf(stack) == AttemptEffect(old(StateOf(stack)), req, f, ignoreScenario, ignoreValidator)
    ensures error == Verdict(req, f, ignoreScenario, ignoreValidator)
    ensures result.Some? <==> error.None?
    ensures result.Some? ==> result.value == f.pawn
  {
    ghost var n := |stack.sessions|;
    ghost var s1 := stack.sessions + [AttemptSession(req, f)];
    assert AllocatedPrefix(s1);
    stack.Push(AttemptSession(req, f));
    NestedGenerations(stack, f.nested);
    assert stack.sessions == BeforeChecks(old(stack.sessions), req, f);
    WithNestedKeepsPrefix(s1, f.nested);
    error := Verdict(req, f, ignoreScenario, ignoreValidator);
    if error.None? {
      stack.RecordSuccess(f.pawn);
      result := Some(f.pawn);
    } else if Discards(error.value) {
      stack.DiscardGeneratedPawn(f.pawn);
      result := None;
    } else {
      result := None;
    }
    stack.Pop();
  }

  // ---------------------------------------------------------------------
  // The retry ladder

  /** The relaxation flags of attempt i: set at 70 and 100 and never reset. */
  function IgnoresScenario(i: nat): bool { i >= IgnoreScenarioFrom }
  function IgnoresValidator(i: nat): bool { i >= IgnoreValidatorFrom }

  function AttemptVerdict(req: GenRequest, attempt: nat -> AttemptFacts, i: nat): Option<ErrorKind>
  {
    Verdict(req, attempt(i), IgnoresScenario(i), IgnoresValidator(i))
  }

  /** The index of the first attempt. */
  function FirstAttempt(): nat { 0 }

  /** The index of the first passing attempt from i on, or 120 when all fail. */
  function FirstSuccess(req: GenRequest, attempt: nat -> AttemptFacts, i: nat): (r: nat)
    requires i <= MaxAttempts
    ensures i <= r <= MaxAttempts
    ensures r < MaxAttempts ==> AttemptVerdict(req, attempt, r).None?
    ensures forall j :: i <= j < r ==> AttemptVerdict(req, attempt, j).Some?
    decreases MaxAttempts - i, 1
  {
    if i == MaxAttempts then i else FirstSuccessAt(req, attempt, i)
  }

  /** FirstSuccess once attempt i is known to be made. */
  function FirstSuccessAt(req: GenRequest, attempt: nat -> AttemptFacts, i: nat): (r: nat)
    requires i < MaxAttempts
    ensures i <= r <= MaxAttempts
    decreases MaxAttempts - i, 0
  {
    if AttemptVerdict(req, attempt, i).None? then i else FirstSuccess(req, attempt, i + 1)
  }

  /** The state after the attempts from i up to and including the first success, or the last. */
  function LadderFrom(st: StackState, req: GenRequest, attempt: nat -> AttemptFacts, i: nat): StackState
    requires i <= MaxAttempts
    decreases MaxAttempts - i, 2
  {
    if i == MaxAttempts then st else AfterAttempt(st, req, attempt, i)
  }

  /** The state after attempt i and, when it fails, the rest of the ladder. */
  function AfterAttempt(st: StackState, req: GenRequest, attempt: nat -> AttemptFacts, i: nat): StackState
    requires i < MaxAttempts
    decreases MaxAttempts - i, 1
  {
    AfterVerdict(st, req, attempt, i, AttemptVerdict(req, attempt, i))
  }

  /** The state after attempt i returned verdict v: done on a pass, on to attempt i + 1 on a failure. */
  function AfterVerdict(st: StackState, req: GenRequest, attempt: nat -> AttemptFacts, i: nat, v: Option<ErrorKind>): StackState
    requires i < MaxAttempts
    decreases MaxAttempts - i, 0
  {
    var next := AttemptEffect(st, req, attempt(i), IgnoresScenario(i), IgnoresValidator(i));
    if v.None? then next else LadderFrom(next, req, attempt, i + 1)
  }

  /** Some attempt that would pass under its own flags means the ladder returns a pawn no later than it. */
  lemma LadderFindsPassingAttempt(req: GenRequest, attempt: nat -> AttemptFacts, m: nat)
    requires m < MaxAttempts && AttemptVerdict(req, attempt, m).None?
    ensures FirstSuccess(req, attempt, FirstAttempt()) <= m
  {
  }

  /**
   * An attempt rejected by the scenario before attempt 70 can, unchanged,
   * fail from attempt 70 on only on a validator, and passes from attempt 100 on.
   */
  lemma ScenarioFailureRelaxed(req: GenRequest, f: AttemptFacts, i: nat)
    requires i >= IgnoreScenarioFrom
    requires Verdict(req, f, false, IgnoresValidator(i)) == Some(ScenarioRequirements)
    ensures var r := Verdict(req, f, IgnoresScenario(i), IgnoresValidator(i));
      r.None? || r == Some(FailedPreGearValidator) || r == Some(FailedPostGearValidator)
    ensures IgnoresValidator(i) ==> Verdict(req, f, IgnoresScenario(i), IgnoresValidator(i)).None?
  {
  }

  /** One rung of the ladder. */
  lemma LadderUnfold(st: StackState, req: GenRequest, attempt: nat -> AttemptFacts, i: nat)
    requires i < MaxAttempts
    ensures var next := AttemptEffect(st, req, attempt(i), IgnoresScenario(i), IgnoresValidator(i));
      if AttemptVerdict(req, attempt, i).None? then
        LadderFrom(st, req, attempt, i) == next && FirstSuccess(req, attempt, i) == i
      else
        LadderFrom(st, req, attempt, i) == LadderFrom(next, req, attempt, i + 1)
        && FirstSuccess(req, attempt, i) == FirstSuccess(req, attempt, i + 1)
  {
    assert LadderFrom(st, req, attempt, i) == AfterAttempt(st, req, attempt, i);
    assert AfterAttempt(st, req, attempt, i) == AfterVerdict(st, req, attempt, i, AttemptVerdict(req, attempt, i));
  }

  /** The stack height is the same after the whole ladder. */
  lemma {:induction false} LadderRestoresHeight(st: StackState, req: GenRequest, attempt: nat -> AttemptFacts, i: nat)
    requires i <= MaxAttempts
    ensures |LadderFrom(st, req, attempt, i).sessions| == |st.sessions|
    decreases MaxAttempts - i
  {
    if i < MaxAttempts {
      var next := AttemptEffect(st, req, attempt(i), IgnoresScenario(i), IgnoresValidator(i));
      AttemptRestoresHeight(st, req, attempt(i), IgnoresScenario(i), IgnoresValidator(i));
      LadderUnfold(st, req, attempt, i);
      if AttemptVerdict(req, attempt, i).Some? {
        LadderRestoresHeight(next, req, attempt, i + 1);
      }
    }
  }

  /** Attempt i of the ladder, with its flags: one rung of LadderFrom, which ends in `goal`. */
  method LadderStep(stack: PawnGenerationStack, req: GenRequest, attempt: nat -> AttemptFacts, i: nat,
                    ignoreScenario: bool, ignoreValidator: bool, ghost goal: StackState, ghost first: nat)
    returns (result: Option<PawnId>)
    requires i < MaxAttempts
    requires AllocatedPrefix(stack.sessions)
    requires ignoreScenario == IgnoresScenario(i) && ignoreValidator == IgnoresValidator(i)
    requires LadderFrom(StateOf(stack), req, attempt, i) == goal && FirstSuccess(req, attempt, i) == first
    modifies stack
    ensures AllocatedPrefix(stack.sessions)
    ensures result.Some? ==> StateOf(stack) == goal && first == i && result.value == attempt(i).pawn
    ensures result.None? ==> LadderFrom(StateOf(stack), req, attempt, i + 1) == goal && FirstSuccess(req, attempt, i + 1) == first
  {
    LadderUnfold(StateOf(stack), req, attempt, i);
    AttemptKeepsPrefix(StateOf(stack), req, attempt(i), ignoreScenario, ignoreValidator);
    var error;
    result, error := TryGenerateNewPawnInternal(stack, req, attempt(i), ignoreScenario, ignoreValidator);
  }

  /**
   * GenerateNewPawnInternal. Each attempt starts from a copy of the
   * request; only the successful attempt's copy is written back.
   */
  method GenerateNewPawnInternal(stack: PawnGenerationStack, req: GenRequest, attempt: nat -> AttemptFacts)
    returns (pawn: Option<PawnId>, reqOut: GenRequest)
    requires AllocatedPrefix(stack.sessions)
    modifies stack
    ensures StateOf(stack) == LadderFrom(old(StateOf(stack)), req, attempt, FirstAttempt())
    ensures pawn.Some? <==> FirstSuccess(req, attempt, FirstAttempt()) < MaxAttempts
    ensures pawn.Some? ==> pawn.value == attempt(FirstSuccess(req, attempt, FirstAttempt())).pawn
                           && reqOut == attempt(FirstSuccess(req, attempt, FirstAttempt())).requestAfter
    ensures pawn.None? ==> reqOut == req
  {
    ghost var goal := LadderFrom(StateOf(stack), req, attempt, FirstAttempt());
    ghost var first := FirstSuccess(req, attempt, FirstAttempt());
    var ignoreScenarioRequirements := false;
    var ignoreValidator := false;
    pawn := None;
    reqOut := req;
    var i := FirstAttempt();
    while i < MaxAttempts
      invariant 0 <= i <= MaxAttempts
      invariant AllocatedPrefix(stack.sessions)
      invariant ignoreScenarioRequirements == (i > IgnoreScenarioFrom)
      invariant ignoreValidator == (i > IgnoreValidatorFrom)
      invariant FirstSuccess(req, attempt, i) == first
      invariant LadderFrom(StateOf(stack), req, attempt, i) == goal
      decreases MaxAttempts - i
    {
      if i == IgnoreScenarioFrom {
        ignoreScenarioRequirements := true;
      }
      if i == IgnoreValidatorFrom {
        ignoreValidator := true;
      }
      var result := LadderStep(stack, req, attempt, i, ignoreScenarioRequirements, ignoreValidator, goal, first);
      if result.Some? {
        pawn := result;
        reqOut := attempt(i).requestAfter;
        return;
      }
      i := i + 1;
    }
  }
}
