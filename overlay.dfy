/**
 * The channel packing of process_image_data: a zero-filled voxels x 3 byte
 * array whose channel 0 receives the static volume and channel 1 the moved
 * volume, one channel after the other; channel 2 keeps its zeros. Voxels are
 * flattened in the volumes' own order, and their byte values are the
 * already-normalised intensities.
 */
module Overlay {
  import opened Wrappers

  newtype Byte = x: int | 0 <= x < 256

  /** The errors process_image_data raises before the overlay exists. */
  datatype ImageError =
    | EmptyStatic   // min() of a static volume with no voxel
    | EmptyMoved    // min() of a moved volume with no voxel
    | ShapeMismatch // the moved volume does not broadcast into the static volume's shape

  /**
   * numpy's rule for assigning an array of shape `source` into one of shape
   * `target`: aligned from the last axis, every extent of the source is 1 or
   * equals the target's, and any extra leading axes of the source have extent 1.
   */
  predicate Broadcasts(source: seq<nat>, target: seq<nat>)
  {
    if |source| <= |target| then
      forall i :: 0 <= i < |source| ==> source[i] == 1 || source[i] == target[|target| - |source| + i]
    else
      (forall i :: 0 <= i < |source| - |target| ==> source[i] == 1) &&
      forall i :: |source| - |target| <= i < |source| ==> source[i] == 1 || source[i] == target[i - (|source| - |target|)]
  }

  /**
   * Whether process_image_data gets as far as returning an overlay for
   * volumes of these shapes: the static minimum is taken first, then the
   * moved minimum, then the moved volume is assigned into channel 1.
   */
  function Preprocess(staticShape: seq<nat>, movedShape: seq<nat>): (r: Outcome<ImageError>)
    ensures r == Fail(EmptyStatic) <==> 0 in staticShape
    ensures r == Fail(EmptyMoved) <==> 0 !in staticShape && 0 in movedShape
    ensures r == Fail(ShapeMismatch) <==> 0 !in staticShape && 0 !in movedShape && !Broadcasts(movedShape, staticShape)
    ensures r == Pass <==> 0 !in staticShape && 0 !in movedShape && Broadcasts(movedShape, staticShape)
  {
    if 0 in staticShape then Fail(EmptyStatic)
    else if 0 in movedShape then Fail(EmptyMoved)
    else if !Broadcasts(movedShape, staticShape) then Fail(ShapeMismatch)
    else Pass
  }

  /** Two volumes of the same shape with no empty axis are always accepted. */
  lemma SameShapePasses(shape: seq<nat>)
    requires 0 !in shape
    ensures Preprocess(shape, shape) == Pass
  {
  }

  /**
   * Shapes of equal rank that the rank check lets through can still be
   * refused here: a 10x10x5 moved volume does not fit a 10x10x10 static one,
   * while a 10x10x1 moved volume is broadcast along the last axis.
   */
  lemma RankCheckIsNotShapeCheck()
    ensures Preprocess([10, 10, 10], [10, 10, 5]) == Fail(ShapeMismatch)
    ensures Preprocess([10, 10, 10], [10, 10, 1]) == Pass
    ensures Preprocess([10, 10, 10], [1, 10, 10, 10]) == Pass
  {
    assert [10, 10, 5][2] != 1 && [10, 10, 5][2] != [10, 10, 10][2];
  }

  /** Channel numbers of the overlay's last axis. */
  const Red: nat := 0
  const Green: nat := 1
  const Blue: nat := 2

  /**
   * Builds the overlay. Volumes with different voxel counts cannot be
   * assigned into the same overlay and raise (None).
   */
  method PackOverlay(staticVoxels: seq<Byte>, movedVoxels: seq<Byte>) returns (overlay: Option<array2<Byte>>)
    ensures overlay.None? <==> |staticVoxels| != |movedVoxels|
    ensures overlay.Some? ==>
      overlay.value.Length0 == |staticVoxels| && overlay.value.Length1 == 3 &&
      forall v :: 0 <= v < |staticVoxels| ==>
        overlay.value[v, Red] == staticVoxels[v] &&
        overlay.value[v, Green] == movedVoxels[v] &&
        overlay.value[v, Blue] == 0
  {
    if |staticVoxels| != |movedVoxels| {
      return None;
    }
    var n := |staticVoxels|;
    var o := new Byte[n, 3]((v, c) => 0);
    for v := 0 to n
      invariant forall u :: 0 <= u < v ==> o[u, Red] == staticVoxels[u]
      invariant forall u :: 0 <= u < n ==> o[u, Green] == 0 && o[u, Blue] == 0
    {
      o[v, Red] := staticVoxels[v];
    }
    for v := 0 to n
      invariant forall u :: 0 <= u < n ==> o[u, Red] == staticVoxels[u] && o[u, Blue] == 0
      invariant forall u :: 0 <= u < v ==> o[u, Green] == movedVoxels[u]
    {
      o[v, Green] := movedVoxels[v];
    }
    overlay := Some(o);
  }
}
