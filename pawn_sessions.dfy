/**
 * The pawn generator's record of the generations in flight: every attempt
 * pushes a session for the pawn it is making and pops it when the attempt
 * ends. A pawn generated successfully while other sessions are open is
 * appended to each enclosing session's list of pawns generated in the
 * meantime, so that a failing enclosing attempt can discard them with it.
 *
 * The static list of sessions is the `sessions` field of a
 * `PawnGenerationStack` object; the world pawn registry is reduced to the set
 * of world pawns and the sequence of pawns passed to the world for discard.
 */
module PawnSessions {
  import opened Wrappers
  import opened Seqs

  type PawnId = nat

  /** Attempts before giving up, and the attempt indices from which requirements are relaxed. */
  const MaxAttempts: nat := 120
  const IgnoreScenarioFrom: nat := 70
  const IgnoreValidatorFrom: nat := 100

  /** PawnGenerationStatus: the pawn, its lazily allocated meantime list, and whether it may be dead. */
  datatype Session = Session(pawn: PawnId, meantime: Option<seq<PawnId>>, allowsDead: bool)

  function Elements(s: seq<PawnId>): set<PawnId>
  {
    set x | x in s
  }

  /** Meantime lists are allocated for a prefix of the stack: a session's list exists only if every enclosing one does. */
  ghost predicate AllocatedPrefix(ss: seq<Session>)
  {
    forall i, j :: 0 <= i < j < |ss| && ss[j].meantime.Some? ==> ss[i].meantime.Some?
  }

  function ListOf(s: Session): seq<PawnId>
  {
    if s.meantime.Some? then s.meantime.value else []
  }

  /** The sessions after pawn `p` is recorded: appended to every list but the innermost, allocating as needed. */
  function Recorded(ss: seq<Session>, p: PawnId): (r: seq<Session>)
    ensures |r| == |ss|
    ensures forall k :: 0 <= k < |ss| - 1 ==> r[k] == ss[k].(meantime := Some(ListOf(ss[k]) + [p]))
    ensures |ss| > 0 ==> r[|ss| - 1] == ss[|ss| - 1]
  {
    seq(|ss|, k requires 0 <= k < |ss| =>
      if k < |ss| - 1 then ss[k].(meantime := Some(ListOf(ss[k]) + [p])) else ss[k])
  }

  /** Recording keeps the allocated prefix and puts the pawn last in every enclosing list. */
  lemma RecordedKeepsPrefix(ss: seq<Session>, p: PawnId)
    requires AllocatedPrefix(ss)
    ensures AllocatedPrefix(Recorded(ss, p))
    ensures forall k :: 0 <= k < |ss| - 1 ==>
              Recorded(ss, p)[k].meantime.Some? && p in Recorded(ss, p)[k].meantime.value
              && Recorded(ss, p)[k].meantime.value[..|ListOf(ss[k])|] == ListOf(ss[k])
  {
    var r := Recorded(ss, p);
    forall k | 0 <= k < |ss| - 1
      ensures r[k].meantime.Some? && p in r[k].meantime.value && r[k].meantime.value[..|ListOf(ss[k])|] == ListOf(ss[k])
    {
      assert r[k].meantime.value == ListOf(ss[k]) + [p];
      assert r[k].meantime.value[|ListOf(ss[k])|] == p;
    }
  }

  /** Every session's list with `p` removed once (the inner loop of DiscardGeneratedPawn). */
  function RemoveFromAll(ss: seq<Session>, p: PawnId): (r: seq<Session>)
    ensures |r| == |ss|
    ensures forall k :: 0 <= k < |ss| ==>
              r[k].pawn == ss[k].pawn && r[k].allowsDead == ss[k].allowsDead
              && r[k].meantime.Some? == ss[k].meantime.Some?
              && (ss[k].meantime.Some? ==> r[k].meantime.value == RemoveFirst(ss[k].meantime.value, p))
  {
    seq(|ss|, k requires 0 <= k < |ss| =>
      if ss[k].meantime.Some? then ss[k].(meantime := Some(RemoveFirst(ss[k].meantime.value, p))) else ss[k])
  }

  /** List.Remove of every pawn of `ps`, in order. */
  function RemoveEach(l: seq<PawnId>, ps: seq<PawnId>): seq<PawnId>
  {
    if |ps| == 0 then l else RemoveFirst(RemoveEach(l, ps[..|ps| - 1]), ps[|ps| - 1])
  }

  /** Every session's list with every pawn of `ps` removed once. */
  function RemoveAllOf(ss: seq<Session>, ps: seq<PawnId>): (r: seq<Session>)
    ensures |r| == |ss|
    ensures forall k :: 0 <= k < |ss| ==>
              r[k].pawn == ss[k].pawn && r[k].allowsDead == ss[k].allowsDead
              && r[k].meantime.Some? == ss[k].meantime.Some?
              && (ss[k].meantime.Some? ==> r[k].meantime.value == RemoveEach(ss[k].meantime.value, ps))
  {
    seq(|ss|, k requires 0 <= k < |ss| =>
      if ss[k].meantime.Some? then ss[k].(meantime := Some(RemoveEach(ss[k].meantime.value, ps))) else ss[k])
  }

  lemma RemoveAllOfStep(ss: seq<Session>, ps: seq<PawnId>, x: PawnId)
    ensures RemoveFromAll(RemoveAllOf(ss, ps), x) == RemoveAllOf(ss, ps + [x])
  {
    assert (ps + [x])[..|ps|] == ps;
  }

  /** Once a pawn of `ps` is removed from a list holding it at most once, it is gone. */
  lemma {:induction false} RemoveEachRemoves(l: seq<PawnId>, ps: seq<PawnId>, x: PawnId)
    requires Occurrences(l, x) <= Occurrences(ps, x)
    ensures x !in RemoveEach(l, ps)
    decreases |ps|
  {
    RemoveEachCount(l, ps, x);
    OccurrencesIn(RemoveEach(l, ps), x);
  }

  lemma {:induction false} RemoveEachCount(l: seq<PawnId>, ps: seq<PawnId>, x: PawnId)
    ensures Occurrences(RemoveEach(l, ps), x) <= if Occurrences(l, x) >= Occurrences(ps, x) then Occurrences(l, x) - Occurrences(ps, x) else 0
    decreases |ps|
  {
    if |ps| > 0 {
      var init, last := ps[..|ps| - 1], ps[|ps| - 1];
      RemoveEachCount(l, init, x);
      OccurrencesRemoveFirst(RemoveEach(l, init), last, x);
      assert ps == init + [last];
      OccurrencesAppend(init, last, x);
    }
  }

  /** Removing pawns that are not in a list leaves it as it was. */
  lemma {:induction false} RemoveEachAbsent(l: seq<PawnId>, ps: seq<PawnId>)
    requires forall x :: x in ps ==> x !in l
    ensures RemoveEach(l, ps) == l
    decreases |ps|
  {
    if |ps| > 0 {
      RemoveEachAbsent(l, ps[..|ps| - 1]);
      RemoveFirstAbsent(l, ps[|ps| - 1]);
    }
  }

  /** Removing what was appended, each once, gives back the original list. */
  lemma RemoveEachAppended(l: seq<PawnId>, ps: seq<PawnId>)
    requires Distinct(ps) && forall x :: x in ps ==> x !in l
    ensures RemoveEach(l + ps, ps) == l
  {
    assert l + ps == l + ps + [];
    RemoveEachPrefix(l, ps, []);
    assert l + [] == l;
  }

  /** Removing the distinct pawns `ps`, appended right after `l`, when more follows them. */
  lemma {:induction false} RemoveEachPrefix(l: seq<PawnId>, ps: seq<PawnId>, rest: seq<PawnId>)
    requires Distinct(ps) && forall x :: x in ps ==> x !in l
    ensures RemoveEach(l + ps + rest, ps) == l + rest
    decreases |ps|
  {
    if |ps| > 0 {
      var init, last := ps[..|ps| - 1], ps[|ps| - 1];
      assert forall x :: x in init ==> x in ps;
      assert Distinct(init);
      assert l + ps + rest == l + init + ([last] + rest);
      RemoveEachPrefix(l, init, [last] + rest);
      assert last !in l by { assert last in ps; }
      var s := l + ([last] + rest);
      assert s[|l|] == last && s[..|l|] == l;
      RemoveFirstAt(s, |l|);
      assert s[|l| + 1..] == rest;
    } else {
      assert l + ps + rest == l + rest;
    }
  }

  // ---------------------------------------------------------------------
  // DiscardGeneratedPawn as written: an index walk over a shrinking list

  /** The pawns the as-written walk visits in a list it also removes them from. */
  function WalkTop(l: seq<PawnId>, i: nat): seq<PawnId>
    decreases |l| - i
  {
    if i >= |l| then [] else [l[i]] + WalkTop(RemoveFirst(l, l[i]), i + 1)
  }

  /** The loop of DiscardGeneratedPawn as written, on the sessions and the pawns discarded so far. */
  function WalkAsWritten(ss: seq<Session>, i: nat, visited: seq<PawnId>): (r: (seq<Session>, seq<PawnId>))
    requires |ss| > 0 && ss[|ss| - 1].meantime.Some?
    ensures r.1 == visited + WalkTop(ss[|ss| - 1].meantime.value, i)
    decreases |ss[|ss| - 1].meantime.value| - i
  {
    var l := ss[|ss| - 1].meantime.value;
    if i >= |l| then (ss, visited)
    else WalkAsWritten(RemoveFromAll(ss, l[i]), i + 1, visited + [l[i]])
  }

  /** The elements at even positions: 0, 2, 4, ... */
  function Evens(s: seq<PawnId>): (r: seq<PawnId>)
    ensures |r| == (|s| + 1) / 2
    ensures forall x :: x in r ==> x in s
  {
    if |s| <= 1 then s else [s[0]] + Evens(s[2..])
  }

  lemma HeadOfRestNotBefore(a: seq<PawnId>, b: seq<PawnId>)
    requires Distinct(a + b) && |b| > 0
    ensures b[0] !in a
  {
    var s := a + b;
    forall i | 0 <= i < |a|
      ensures a[i] != b[0]
    {
      assert s[i] == a[i] && s[|a|] == b[0];
    }
  }

  lemma DistinctWithoutHead(a: seq<PawnId>, b: seq<PawnId>)
    requires Distinct(a + b) && |b| >= 2
    ensures Distinct(a + [b[1]] + b[2..])
  {
    var s := a + b;
    var t := a + [b[1]] + b[2..];
    forall i, j | 0 <= i < j < |t|
      ensures t[i] != t[j]
    {
      var si := if i < |a| then i else i + 1;
      var sj := if j < |a| then j else j + 1;
      assert t[i] == s[si];
      assert t[j] == s[sj];
    }
  }

  /**
   * On a list without repeats the walk visits exactly the pawns at even
   * positions: each removal shifts the next pawn under the index just passed.
   */
  lemma {:induction false} WalkVisitsEvens(a: seq<PawnId>, b: seq<PawnId>)
    requires Distinct(a + b)
    ensures WalkTop(a + b, |a|) == Evens(b)
    decreases |b|
  {
    var s := a + b;
    if |b| > 0 {
      assert s[|a|] == b[0];
      HeadOfRestNotBefore(a, b);
      assert s[..|a|] == a;
      RemoveFirstAt(s, |a|);
      assert s[..|a|] == a && s[|a| + 1..] == b[1..];
      var t := a + b[1..];
      assert RemoveFirst(s, s[|a|]) == t;
      if |b| == 1 {
        assert t == a;
      } else {
        var a2 := a + [b[1]];
        assert t == a2 + b[2..];
        DistinctWithoutHead(a, b);
        WalkVisitsEvens(a2, b[2..]);
      }
    }
  }

  /**
   * As written, every second pawn of the innermost list escapes: on a list
   * of two or more distinct pawns, the second is never discarded.
   */
  lemma SecondPawnEscapes(l: seq<PawnId>)
    requires Distinct(l) && |l| >= 2
    ensures WalkTop(l, 0) == Evens(l)
    ensures l[1] !in WalkTop(l, 0)
  {
    assert [] + l == l;
    WalkVisitsEvens([], l);
    assert Evens(l) == [l[0]] + Evens(l[2..]);
    assert l[1] != l[0];
    assert forall x :: x in Evens(l[2..]) ==> x in l[2..];
    assert l[1] !in l[2..] by {
      forall i | 0 <= i < |l| - 2
        ensures l[2..][i] != l[1]
      {
        assert l[2..][i] == l[i + 2];
      }
    }
  }

  /** The two-pawn case: of [5, 6], only 5 is discarded, and 6 stays in the enclosing list. */
  lemma AsWrittenKeepsSecondPawn()
    ensures var ss := [Session(1, Some([5, 6]), false), Session(2, Some([5, 6]), false)];
      && WalkAsWritten(ss, 0, []).1 == [5]
      && WalkAsWritten(ss, 0, []).0[0].meantime == Some([6])
  {
    var ss := [Session(1, Some([5, 6]), false), Session(2, Some([5, 6]), false)];
    assert RemoveFirst([5, 6], 5) == [6];
    var ss1 := RemoveFromAll(ss, 5);
    assert ss1[0].meantime == Some([6]) && ss1[1].meantime == Some([6]);
    assert WalkAsWritten(ss1, 1, [5]) == (ss1, [5]);
  }

  // ---------------------------------------------------------------------
  // The stack

  class PawnGenerationStack {
    var sessions: seq<Session>
    var worldPawns: set<PawnId>
    /** The pawns passed to the world for discard, in order. */
    var discarded: seq<PawnId>

    constructor (world: set<PawnId>)
      ensures sessions == [] && worldPawns == world && discarded == []
    {
      sessions := [];
      worldPawns := world;
      discarded := [];
    }

    method Push(s: Session)
      modifies this`sessions
      ensures sessions == old(sessions) + [s]
    {
      sessions := sessions + [s];
    }

    /** RemoveLast, in the attempt's finally block. */
    method Pop()
      requires |sessions| > 0
      modifies this`sessions
      ensures sessions == old(sessions)[..|old(sessions)| - 1]
    {
      sessions := sessions[..|sessions| - 1];
    }

    /** The success path of an attempt: record the pawn in every enclosing session. */
    method RecordSuccess(p: PawnId)
      modifies this`sessions
      ensures sessions == Recorded(old(sessions), p)
    {
      var k := 0;
      while k < |sessions| - 1
        invariant 0 <= k <= |sessions|
        invariant |sessions| == |old(sessions)|
        invariant forall j :: 0 <= j < k ==> sessions[j] == Recorded(old(sessions), p)[j]
        invariant forall j :: k <= j < |sessions| ==> sessions[j] == old(sessions)[j]
      {
        if sessions[k].meantime.None? {
          sessions := sessions[k := sessions[k].(meantime := Some([]))];
        }
        sessions := sessions[k := sessions[k].(meantime := Some(sessions[k].meantime.value + [p]))];
        k := k + 1;
      }
      assert sessions == Recorded(old(sessions), p);
    }

    /** Find.WorldPawns.RemovePawn when present, then PassToWorld with the discard mode. */
    method PassToWorldForDiscard(p: PawnId)
      modifies this`worldPawns, this`discarded
      ensures worldPawns == old(worldPawns) - {p} && discarded == old(discarded) + [p]
    {
      if p in worldPawns {
        worldPawns := worldPawns - {p};
      }
      discarded := discarded + [p];
    }

    /** The inner loop: remove `p` once from every session's list. */
    method RemoveEverywhere(p: PawnId)
      requires forall j :: 0 <= j < |sessions| ==> sessions[j].meantime.Some?
      modifies this`sessions
      ensures sessions == RemoveFromAll(old(sessions), p)
    {
      var j := 0;
      while j < |sessions|
        invariant 0 <= j <= |sessions| == |old(sessions)|
        invariant forall k :: 0 <= k < j ==> sessions[k] == RemoveFromAll(old(sessions), p)[k]
        invariant forall k :: j <= k < |sessions| ==> sessions[k] == old(sessions)[k]
      {
        sessions := sessions[j := sessions[j].(meantime := Some(RemoveFirst(sessions[j].meantime.value, p)))];
        j := j + 1;
      }
      assert sessions == RemoveFromAll(old(sessions), p);
    }

    /**
     * DiscardGeneratedPawn as written: the index walk over the innermost list,
     * which removes each visited pawn from that same list.
     */
    method DiscardAsWritten(p: PawnId)
      requires |sessions| > 0 && AllocatedPrefix(sessions)
      modifies this`sessions, this`worldPawns, this`discarded
      ensures old(sessions)[|old(sessions)| - 1].meantime.None? ==>
                sessions == old(sessions) && discarded == old(discarded) + [p]
      ensures old(sessions)[|old(sessions)| - 1].meantime.Some? ==>
                var w := WalkAsWritten(old(sessions), 0, []);
                sessions == w.0 && discarded == old(discarded) + [p] + w.1
    {
      PassToWorldForDiscard(p);
      var top := |sessions| - 1;
      if sessions[top].meantime.None? {
        return;
      }
      ghost var vis: seq<PawnId> := [];
      var i := 0;
      while i < |sessions[top].meantime.value|
        invariant |sessions| == top + 1
        invariant forall j :: 0 <= j < |sessions| ==> sessions[j].meantime.Some?
        invariant WalkAsWritten(sessions, i, vis) == WalkAsWritten(old(sessions), 0, [])
        invariant discarded == old(discarded) + [p] + vis
        decreases |sessions[top].meantime.value| - i
      {
        var p2 := sessions[top].meantime.value[i];
        PassToWorldForDiscard(p2);
        RemoveEverywhere(p2);
        vis := vis + [p2];
        i := i + 1;
      }
    }

    /** DiscardGeneratedPawn, corrected: every pawn of the innermost list is discarded and removed everywhere. */
    method DiscardGeneratedPawn(p: PawnId)
      requires |sessions| > 0 && AllocatedPrefix(sessions)
      modifies this`sessions, this`worldPawns, this`discarded
      ensures sessions == RemoveAllOf(old(sessions), ListOf(old(sessions)[|old(sessions)| - 1]))
      ensures discarded == old(discarded) + [p] + ListOf(old(sessions)[|old(sessions)| - 1])
      ensures worldPawns == old(worldPawns) - {p} - Elements(ListOf(old(sessions)[|old(sessions)| - 1]))
    {
      PassToWorldForDiscard(p);
      var top := |sessions| - 1;
      if sessions[top].meantime.None? {
        assert sessions == RemoveAllOf(old(sessions), []);
        return;
      }
      var l := sessions[top].meantime.value;
      var i := 0;
      while i < |l|
        invariant 0 <= i <= |l|
        invariant sessions == RemoveAllOf(old(sessions), l[..i])
        invariant discarded == old(discarded) + [p] + l[..i]
        invariant worldPawns == old(worldPawns) - {p} - Elements(l[..i])
      {
        PassToWorldForDiscard(l[i]);
        RemoveEverywhere(l[i]);
        RemoveAllOfStep(old(sessions), l[..i], l[i]);
        assert l[..i + 1] == l[..i] + [l[i]];
        i := i + 1;
      }
      assert l[..i] == l;
    }
  }

  /** After the corrected discard, no pawn of the innermost list is left in any list that held it at most once. */
  lemma DiscardLeavesNoMeantimePawn(ss: seq<Session>, k: nat, x: PawnId)
    requires |ss| > 0 && k < |ss| && ss[k].meantime.Some?
    requires x in ListOf(ss[|ss| - 1]) && Occurrences(ss[k].meantime.value, x) <= 1
    ensures x !in RemoveAllOf(ss, ListOf(ss[|ss| - 1]))[k].meantime.value
  {
    OccurrencesIn(ListOf(ss[|ss| - 1]), x);
    RemoveEachRemoves(ss[k].meantime.value, ListOf(ss[|ss| - 1]), x);
  }
}
