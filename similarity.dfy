/**
 * `calculateSimilarity`: the literal similarity of two phrases, one minus the
 * edit distance of their normalised forms over the length of the longer one.
 * The score is an exact rational, so it is modelled as a `real`.
 */
module Scorer {
  import opened Text
  import opened Levenshtein

  /** A distance of at most `n` over a positive `n` is a ratio in [0, 1], and positive when the distance is. */
  lemma RatioBounds(d: nat, n: nat)
    requires 0 < n && d <= n
    ensures 0.0 <= (d as real) / (n as real) <= 1.0
    ensures d > 0 ==> (d as real) / (n as real) > 0.0
  {
    var q := (d as real) / (n as real);
    assert q * (n as real) == d as real;
  }

  /** The comparison of two already normalised strings: lines 50-59 of `calculateSimilarity`. */
  function NormalizedScore(s1: string, s2: string): (r: real)
    ensures 0.0 <= r <= 1.0
  {
    if s1 == s2 then 1.0
    else
      var longer := if |s1| > |s2| then s1 else s2;
      var shorter := if |s1| > |s2| then s2 else s1;
      if |longer| == 0 then 1.0
      else
        LevAtMostLonger(longer, shorter);
        RatioBounds(Lev(longer, shorter), |longer|);
        1.0 - (Lev(longer, shorter) as real) / (|longer| as real)
  }

  /** The score the source computes, with the edit distance taken from its specification. */
  function Similarity(str1: string, str2: string): (r: real)
    ensures Normalize(str1) == Normalize(str2) ==> r == 1.0
  {
    NormalizedScore(Normalize(str1), Normalize(str2))
  }

  /** `calculateSimilarity(str1, str2)`, running the row programme on `(longer, shorter)`. */
  method CalculateSimilarity(str1: string, str2: string) returns (r: real)
    ensures 0.0 <= r <= 1.0
    ensures r == Similarity(str1, str2)
  {
    var s1 := Normalize(str1);
    var s2 := Normalize(str2);
    if s1 == s2 {
      return 1.0;
    }
    var longer := if |s1| > |s2| then s1 else s2;
    var shorter := if |s1| > |s2| then s2 else s1;
    if |longer| == 0 {
      return 1.0;
    }
    var editDistance := EditDistance(longer, shorter);
    r := 1.0 - (editDistance as real) / (|longer| as real);
    assert r == NormalizedScore(s1, s2);
  }

  /** The score lies in [0, 1] for every pair of phrases. */
  lemma SimilarityInUnitInterval(str1: string, str2: string)
    ensures 0.0 <= Similarity(str1, str2) <= 1.0
  {
    var _ := NormalizedScore(Normalize(str1), Normalize(str2));
  }

  lemma NormalizedScoreOneIffEqual(s1: string, s2: string)
    ensures NormalizedScore(s1, s2) == 1.0 <==> s1 == s2
  {
    if s1 != s2 {
      var longer := if |s1| > |s2| then s1 else s2;
      var shorter := if |s1| > |s2| then s2 else s1;
      LevZeroIffEqual(longer, shorter);
      if |longer| > 0 {
        LevAtMostLonger(longer, shorter);
        RatioBounds(Lev(longer, shorter), |longer|);
      }
    }
  }

  lemma NormalizedScoreByDistance(s1: string, s2: string)
    requires |s1| > 0 || |s2| > 0
    ensures NormalizedScore(s1, s2) == 1.0 - (Lev(s1, s2) as real) / (Max(|s1|, |s2|) as real)
  {
    LevSymmetric(s1, s2);
    LevZeroIffEqual(s1, s2);
  }

  lemma NormalizedScoreSymmetric(s1: string, s2: string)
    ensures NormalizedScore(s1, s2) == NormalizedScore(s2, s1)
  {
    LevSymmetric(s1, s2);
  }

  /** The score is 1 exactly when the two phrases agree after lower-casing and trimming. */
  lemma SimilarityOneIffNormalizedEqual(str1: string, str2: string)
    ensures Similarity(str1, str2) == 1.0 <==> Normalize(str1) == Normalize(str2)
  {
    NormalizedScoreOneIffEqual(Normalize(str1), Normalize(str2));
  }

  /**
   * Whenever one normalised phrase is non-empty, the score is one minus the
   * distance of the normalised phrases over the larger of their lengths.
   */
  lemma SimilarityByDistance(str1: string, str2: string)
    requires |Normalize(str1)| > 0 || |Normalize(str2)| > 0
    ensures Similarity(str1, str2) ==
      1.0 - (Lev(Normalize(str1), Normalize(str2)) as real) / (Max(|Normalize(str1)|, |Normalize(str2)|) as real)
  {
    NormalizedScoreByDistance(Normalize(str1), Normalize(str2));
  }

  /** Choosing longer and shorter by length makes the score symmetric. */
  lemma SimilaritySymmetric(str1: string, str2: string)
    ensures Similarity(str1, str2) == Similarity(str2, str1)
  {
    NormalizedScoreSymmetric(Normalize(str1), Normalize(str2));
  }
}
