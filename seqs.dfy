/**
 * List helpers shared by the components that keep lists of ids: counting
 * occurrences and List.Remove, which drops the first occurrence only.
 */
module Seqs {
  /** How often `x` occurs in `s`. */
  function Occurrences<T(==)>(s: seq<T>, x: T): nat
  {
    if |s| == 0 then 0 else (if s[0] == x then 1 else 0) + Occurrences(s[1..], x)
  }

  /** List.Remove: drop the first occurrence, if any. */
  function RemoveFirst<T(==)>(s: seq<T>, x: T): (r: seq<T>)
    ensures |r| == if x in s then |s| - 1 else |s|
    ensures forall y :: y in r ==> y in s
  {
    if |s| == 0 then []
    else if s[0] == x then s[1..]
    else
      assert forall y :: y in s[1..] ==> y in s;
      [s[0]] + RemoveFirst(s[1..], x)
  }

  /** No element occurs twice. */
  predicate Distinct<T(==)>(s: seq<T>)
  {
    forall i, j :: 0 <= i < j < |s| ==> s[i] != s[j]
  }

  lemma {:induction false} OccurrencesIn<T>(s: seq<T>, x: T)
    ensures x in s <==> Occurrences(s, x) > 0
    decreases |s|
  {
    if |s| > 0 {
      OccurrencesIn(s[1..], x);
      assert s == [s[0]] + s[1..];
    }
  }

  lemma {:induction false} OccurrencesAppend<T>(s: seq<T>, y: T, x: T)
    ensures Occurrences(s + [y], x) == Occurrences(s, x) + (if x == y then 1 else 0)
    decreases |s|
  {
    if |s| == 0 {
      assert s + [y] == [y];
    } else {
      assert (s + [y])[1..] == s[1..] + [y];
      OccurrencesAppend(s[1..], y, x);
    }
  }

  lemma {:induction false} OccurrencesRemoveFirst<T>(s: seq<T>, y: T, x: T)
    ensures Occurrences(RemoveFirst(s, y), x) ==
              if x == y && Occurrences(s, x) > 0 then Occurrences(s, x) - 1 else Occurrences(s, x)
    decreases |s|
  {
    if |s| > 0 && s[0] != y {
      OccurrencesRemoveFirst(s[1..], y, x);
      assert ([s[0]] + RemoveFirst(s[1..], y))[1..] == RemoveFirst(s[1..], y);
    }
  }

  /** Removing an element found first at index `i` cuts index `i` out. */
  lemma {:induction false} RemoveFirstAt<T>(s: seq<T>, i: nat)
    requires i < |s| && s[i] !in s[..i]
    ensures RemoveFirst(s, s[i]) == s[..i] + s[i + 1..]
    decreases i
  {
    if i > 0 {
      assert s[1..][..i - 1] == s[1..i];
      assert s[1..i] == s[..i][1..];
      assert s[1..][i - 1] == s[i];
      RemoveFirstAt(s[1..], i - 1);
      assert s[0] in s[..i];
      assert s[..i] == [s[0]] + s[1..][..i - 1];
      assert s[1..][i..] == s[i + 1..];
    }
  }

  /** Removing an absent element changes nothing. */
  lemma {:induction false} RemoveFirstAbsent<T>(s: seq<T>, x: T)
    requires x !in s
    ensures RemoveFirst(s, x) == s
    decreases |s|
  {
    if |s| > 0 {
      assert s[0] in s;
      assert forall y :: y in s[1..] ==> y in s;
      RemoveFirstAbsent(s[1..], x);
    }
  }

  /** Other elements survive the removal. */
  lemma {:induction false} RemoveFirstKeeps<T>(s: seq<T>, x: T, y: T)
    requires y != x && y in s
    ensures y in RemoveFirst(s, x)
    decreases |s|
  {
    if s[0] != y {
      assert y in s[1..];
      if s[0] != x {
        RemoveFirstKeeps(s[1..], x, y);
      }
    }
  }
}
