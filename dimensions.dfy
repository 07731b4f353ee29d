/** The sanity check run before any visualisation (check_dimensions). */
module Dimensions {
  import opened Wrappers

  /** The ValueError raised for volumes of different rank. */
  datatype DimensionError = DimensionMismatch

  /**
   * Fails exactly when the two shapes have different numbers of axes; the
   * extents themselves are not compared.
   */
  function CheckDimensions(staticShape: seq<nat>, movingShape: seq<nat>): (r: Outcome<DimensionError>)
    ensures r.Fail? <==> |staticShape| != |movingShape|
    ensures r.Fail? ==> r.error == DimensionMismatch
  {
    if |staticShape| != |movingShape| then Fail(DimensionMismatch) else Pass
  }

  /** The verdict depends only on the two ranks: shapes of equal rank pass whatever their extents. */
  lemma CheckDependsOnRankOnly(s1: seq<nat>, m1: seq<nat>, s2: seq<nat>, m2: seq<nat>)
    requires |s1| == |s2| && |m1| == |m2|
    ensures CheckDimensions(s1, m1) == CheckDimensions(s2, m2)
  {
  }

  /** A 10x10x10 static volume and a 10x10x5 moving volume pass the check. */
  lemma EqualRankDifferentExtentsPass()
    ensures CheckDimensions([10, 10, 10], [10, 10, 5]) == Pass
    ensures CheckDimensions([10, 10, 10], [10, 10]) == Fail(DimensionMismatch)
  {
  }
}
