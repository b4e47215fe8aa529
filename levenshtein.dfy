/**
 * Unit-cost edit distance (`getEditDistance`): the classic recurrence over
 * prefixes as the specification, and the source's single-row dynamic
 * programme, proved to compute it.
 */
module Levenshtein {

  function Min(a: int, b: int): int
  {
    if a <= b then a else b
  }

  function Max(a: int, b: int): int
  {
    if a >= b then a else b
  }

  /**
   * Levenshtein distance: the fewest single-character insertions, deletions
   * and substitutions, each of cost 1, that turn `a` into `b`. The last
   * characters of `a` and `b` are deleted, inserted or substituted (free when equal).
   */
  function Lev(a: string, b: string): (d: nat)
    ensures |a| - |b| <= d && |b| - |a| <= d
    decreases |a| + |b|
  {
    if |a| == 0 then |b|
    else if |b| == 0 then |a|
    else
      var a', b' := a[..|a| - 1], b[..|b| - 1];
      var substitution := if a[|a| - 1] == b[|b| - 1] then 0 else 1;
      Min(Min(Lev(a', b) + 1, Lev(a, b') + 1), Lev(a', b') + substitution)
  }

  /** Deleting the last character of the first string is one possible edit. */
  lemma LevDropFirstUpper(x: string, z: string)
    requires |x| > 0
    ensures Lev(x, z) <= Lev(x[..|x| - 1], z) + 1
  {
  }

  /** Removing the last character of the second string changes the distance by at most one. */
  lemma {:induction false} LevDropLastRight(x: string, y: string)
    requires |y| > 0
    ensures Lev(x, y[..|y| - 1]) <= Lev(x, y) + 1
    decreases |x|
  {
    var y' := y[..|y| - 1];
    if |x| > 0 {
      var x' := x[..|x| - 1];
      LevDropLastRight(x', y);
      LevDropFirstUpper(x, y');
    }
  }

  /** The distance does not depend on the order of its arguments. */
  lemma {:induction false} LevSymmetric(a: string, b: string)
    ensures Lev(a, b) == Lev(b, a)
    decreases |a| + |b|
  {
    if |a| > 0 && |b| > 0 {
      var a', b' := a[..|a| - 1], b[..|b| - 1];
      LevSymmetric(a', b);
      LevSymmetric(a, b');
      LevSymmetric(a', b');
    }
  }

  lemma LevDropLastLeft(x: string, y: string)
    requires |x| > 0
    ensures Lev(x[..|x| - 1], y) <= Lev(x, y) + 1
  {
    LevSymmetric(x, y);
    LevSymmetric(x[..|x| - 1], y);
    LevDropLastRight(y, x);
  }

  /**
   * When the last characters agree, the distance is that of the two strings
   * without them: the shortcut `getEditDistance` takes on a match.
   */
  lemma LevMatchingLast(a: string, b: string)
    requires |a| > 0 && |b| > 0 && a[|a| - 1] == b[|b| - 1]
    ensures Lev(a, b) == Lev(a[..|a| - 1], b[..|b| - 1])
  {
    var a', b' := a[..|a| - 1], b[..|b| - 1];
    LevDropLastRight(a', b);
    LevDropLastLeft(a, b');
  }

  /** The distance is zero exactly between equal strings. */
  lemma {:induction false} LevZeroIffEqual(a: string, b: string)
    ensures Lev(a, b) == 0 <==> a == b
    decreases |a| + |b|
  {
    if |a| > 0 && |b| > 0 {
      var a', b' := a[..|a| - 1], b[..|b| - 1];
      LevZeroIffEqual(a', b');
      if a == b {
        assert a' == b';
      }
    }
  }

  /** The distance never exceeds the length of the longer string. */
  lemma {:induction false} LevAtMostLonger(a: string, b: string)
    ensures Lev(a, b) <= Max(|a|, |b|)
    decreases |a| + |b|
  {
    if |a| > 0 && |b| > 0 {
      LevAtMostLonger(a[..|a| - 1], b[..|b| - 1]);
    }
  }

  /** The recurrence on prefixes of two fixed strings, in the form the row programme evaluates it. */
  lemma LevPrefixStep(s1: string, s2: string, i: nat, j: nat)
    requires 0 < i <= |s1| && 0 < j <= |s2|
    ensures Lev(s1[..i], s2[..j]) ==
      if s1[i - 1] == s2[j - 1] then Lev(s1[..i - 1], s2[..j - 1])
      else Min(Min(Lev(s1[..i - 1], s2[..j - 1]), Lev(s1[..i], s2[..j - 1])), Lev(s1[..i - 1], s2[..j])) + 1
  {
    var a, b := s1[..i], s2[..j];
    assert a[..|a| - 1] == s1[..i - 1];
    assert b[..|b| - 1] == s2[..j - 1];
    if s1[i - 1] == s2[j - 1] {
      LevMatchingLast(a, b);
    }
  }

  /** The first row and the first column of the table. */
  lemma LevEmptyPrefix(s1: string, s2: string, i: nat, k: nat)
    requires i <= |s1| && k <= |s2|
    ensures Lev(s1[..0], s2[..k]) == k
    ensures Lev(s1[..i], s2[..0]) == i
  {
  }

  /** One cell of the table from its diagonal, left and upper neighbours, as the inner loop computes it. */
  lemma LevCell(s1: string, s2: string, i: nat, j: nat, diagonal: nat, left: nat, up: nat)
    requires 0 < i <= |s1| && 0 < j <= |s2|
    requires diagonal == Lev(s1[..i - 1], s2[..j - 1])
    requires left == Lev(s1[..i], s2[..j - 1])
    requires up == Lev(s1[..i - 1], s2[..j])
    ensures Lev(s1[..i], s2[..j]) ==
      if s1[i - 1] == s2[j - 1] then diagonal else Min(Min(diagonal, left), up) + 1
  {
    LevPrefixStep(s1, s2, i, j);
  }

  /** How many entries of the new row the inner loop has stored once it reaches `j`. */
  function Written(j: nat): nat
  {
    if j == 0 then 0 else j - 1
  }

  /** Entries below `w` already hold row `i` of the table. */
  ghost predicate Stored(costs: seq<nat>, s1: string, s2: string, i: nat, w: nat)
    requires i <= |s1| && w <= |costs| <= |s2| + 1
  {
    forall k :: 0 <= k < w ==> costs[k] == Lev(s1[..i], s2[..k])
  }

  /** Entries from `w` on still hold row `i - 1` of the table. */
  ghost predicate Pending(costs: seq<nat>, s1: string, s2: string, i: nat, w: nat)
    requires 0 < i <= |s1| && |costs| == |s2| + 1
  {
    forall k :: w <= k < |costs| ==> costs[k] == Lev(s1[..i - 1], s2[..k])
  }

  /** Storing the entry of column `j - 1` of row `i` moves the boundary between the two rows by one. */
  lemma StoreCell(before: seq<nat>, after: seq<nat>, s1: string, s2: string, i: nat, j: nat)
    requires 0 < i <= |s1| && 0 < j <= |s2| && |before| == |s2| + 1
    requires Stored(before, s1, s2, i, j - 1) && Pending(before, s1, s2, i, j - 1)
    requires after == before[j - 1 := Lev(s1[..i], s2[..j - 1])]
    ensures Stored(after, s1, s2, i, j) && Pending(after, s1, s2, i, j)
  {
  }

  /**
   * One pass of the outer loop of `getEditDistance(s1, s2)`: `costs` holds the
   * row of the prefix `s1[..i-1]` and is overwritten left to right with the
   * row of `s1[..i]`, `lastValue` carrying the entry just computed one
   * position behind the write. Row 0 is written directly.
   */
  method FillRow(s1: string, s2: string, i: nat, costs: array<nat>)
    requires i <= |s1| && costs.Length == |s2| + 1
    requires i > 0 ==> forall k :: 0 <= k <= |s2| ==> costs[k] == Lev(s1[..i - 1], s2[..k])
    modifies costs
    ensures forall k :: 0 <= k <= |s2| ==> costs[k] == Lev(s1[..i], s2[..k])
  {
    var n := |s2|;
    var lastValue: nat := i;
    LevEmptyPrefix(s1, s2, i, 0);
    for j := 0 to n + 1
      invariant i == 0 ==> forall k :: 0 <= k < j ==> costs[k] == k
      invariant i > 0 ==> lastValue == Lev(s1[..i], s2[..Written(j)])
      invariant i > 0 ==> Stored(costs[..], s1, s2, i, Written(j)) && Pending(costs[..], s1, s2, i, Written(j))
    {
      if i == 0 {
        costs[j] := j;
      } else if j > 0 {
        assert costs[j - 1] == costs[..][j - 1] && costs[j] == costs[..][j];
        LevCell(s1, s2, i, j, costs[j - 1], lastValue, costs[j]);
        var newValue := costs[j - 1];
        if s1[i - 1] != s2[j - 1] {
          newValue := Min(Min(newValue, lastValue), costs[j]) + 1;
        }
        ghost var before := costs[..];
        costs[j - 1] := lastValue;
        StoreCell(before, costs[..], s1, s2, i, j);
        lastValue := newValue;
      }
    }
    if i > 0 {
      ghost var before := costs[..];
      costs[n] := lastValue;
      forall k | 0 <= k <= n ensures costs[k] == Lev(s1[..i], s2[..k]) {
        if k < n {
          assert costs[k] == before[k];
        }
      }
    } else {
      forall k | 0 <= k <= n ensures costs[k] == Lev(s1[..0], s2[..k]) {
        LevEmptyPrefix(s1, s2, 0, k);
      }
    }
  }

  /** `getEditDistance(s1, s2)`: the single-row dynamic programme computes the Levenshtein distance. */
  method EditDistance(s1: string, s2: string) returns (d: nat)
    ensures d == Lev(s1, s2)
  {
    var costs := new nat[|s2| + 1];
    for i := 0 to |s1| + 1
      invariant i > 0 ==> forall k :: 0 <= k <= |s2| ==> costs[k] == Lev(s1[..i - 1], s2[..k])
    {
      FillRow(s1, s2, i, costs);
    }
    assert s1[..|s1|] == s1 && s2[..|s2|] == s2;
    d := costs[|s2|];
  }
}
