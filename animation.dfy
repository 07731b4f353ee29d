/**
 * Plane selection and frame sequencing of animate_overlap and
 * animate_overlap_with_renderer. Slice extraction, rendering and the colour
 * reduction are calls into code outside this model, so they are parameters:
 * the frames are whatever those functions return for the slice indices the
 * loop visits.
 */
module Animation {
  import opened Wrappers
  import opened Overlay

  /** The three anatomical planes, with the array axis each one slices along. */
  datatype Plane = Sagittal | Coronal | Axial
  {
    function Axis(): nat
    {
      match this
      case Sagittal => 0
      case Coronal => 1
      case Axial => 2
    }
  }

  /** The spatial extents (x, y, z) of the overlay volume. */
  datatype Extents = Extents(x: nat, y: nat, z: nat)
  {
    /** The number of slices along the axis of plane p. */
    function Along(p: Plane): nat
    {
      match p
      case Sagittal => x
      case Coronal => y
      case Axial => z
    }
  }

  /** The number of slices to visit and the plane they are cut from (None when the selector is unknown). */
  datatype Selection = Selection(numSlices: nat, plane: Option<Plane>)

  /**
   * Unpacking `x, y, z, _ = overlay.shape`: the overlay has the volume's shape
   * plus a channel axis, so only a three-dimensional volume unpacks; any other
   * rank raises.
   */
  function OverlayExtents(volumeShape: seq<nat>): (e: Option<Extents>)
    ensures e.Some? <==> |volumeShape| == 3
    ensures e.Some? ==> [e.value.x, e.value.y, e.value.z] == volumeShape
  {
    if |volumeShape| == 3 then Some(Extents(volumeShape[0], volumeShape[1], volumeShape[2])) else None
  }

  /**
   * The selector chain: exactly the strings "saggital", "coronal" and "axial"
   * choose a plane, and the slice count is the extent along its axis; every
   * other string leaves zero slices.
   */
  function SelectPlane(sliType: string, e: Extents): (sel: Selection)
    ensures sel.plane == Some(Sagittal) <==> sliType == "saggital"
    ensures sel.plane == Some(Coronal) <==> sliType == "coronal"
    ensures sel.plane == Some(Axial) <==> sliType == "axial"
    ensures sel.plane.Some? ==> sel.numSlices == e.Along(sel.plane.value)
    ensures sel.plane.None? ==> sel.numSlices == 0
  {
    if sliType == "saggital" then Selection(e.x, Some(Sagittal))
    else if sliType == "coronal" then Selection(e.y, Some(Coronal))
    else if sliType == "axial" then Selection(e.z, Some(Axial))
    else Selection(0, None)
  }

  /** The plane axis numbers 0, 1, 2 are those of the x, y and z extents, in that order. */
  lemma SelectedAxisMatchesExtent(sliType: string, e: Extents)
    requires SelectPlane(sliType, e).plane.Some?
    ensures var sel := SelectPlane(sliType, e);
      sel.numSlices == [e.x, e.y, e.z][sel.plane.value.Axis()]
  {
  }

  /** The spelling "sagital" used in the documentation of the selector selects no plane and hence no frame. */
  lemma DocumentedSpellingSelectsNothing(e: Extents)
    ensures SelectPlane("sagital", e) == Selection(0, None)
  {
  }

  /**
   * The selector as documented: the spelling "sagital" used in the
   * documentation selects the sagittal plane, as does "saggital", the spelling the code compares against.
   */
  function SelectPlaneDocumented(sliType: string, e: Extents): (sel: Selection)
    ensures sel.plane == Some(Sagittal) <==> sliType == "sagital" || sliType == "saggital"
    ensures sel.plane == Some(Coronal) <==> sliType == "coronal"
    ensures sel.plane == Some(Axial) <==> sliType == "axial"
    ensures sel.plane.Some? ==> sel.numSlices == e.Along(sel.plane.value)
    ensures sel.plane.None? ==> sel.numSlices == 0
  {
    if sliType == "sagital" then Selection(e.x, Some(Sagittal)) else SelectPlane(sliType, e)
  }

  /** The documented selector agrees with the code's selector on every string except "sagital". */
  lemma DocumentedSelectorExtendsCode(sliType: string, e: Extents)
    requires sliType != "sagital"
    ensures SelectPlaneDocumented(sliType, e) == SelectPlane(sliType, e)
  {
  }

  /**
   * Whether process_image_data returns and the overlay shape unpacks into
   * (x, y, z, channels): the volumes must pass preprocessing and the static
   * volume must have three axes.
   */
  predicate Animatable(staticShape: seq<nat>, movedShape: seq<nat>)
  {
    Preprocess(staticShape, movedShape) == Pass && OverlayExtents(staticShape).Some?
  }

  /** The selection made for an animatable pair of volumes. */
  function SelectionFor(staticShape: seq<nat>, sliType: string): Selection
    requires |staticShape| == 3
  {
    SelectPlane(sliType, OverlayExtents(staticShape).value)
  }

  /**
   * animate_overlap: after preprocessing, unpacking and selection, one frame
   * is appended per slice index in ascending order; extract(a, i) stands for
   * the slice i cut along axis number a (slice_type) from the overlay.
   * Preprocessing failures and a static volume without three axes raise (None).
   */
  method AnimateOverlap<F>(staticShape: seq<nat>, movedShape: seq<nat>, sliType: string, extract: (nat, nat) -> F)
    returns (frames: Option<seq<F>>)
    ensures frames.None? <==> !Animatable(staticShape, movedShape)
    ensures frames.Some? ==>
      var sel := SelectionFor(staticShape, sliType);
      |frames.value| == sel.numSlices &&
      forall k :: 0 <= k < |frames.value| ==> frames.value[k] == extract(sel.plane.value.Axis(), k)
  {
    if Preprocess(staticShape, movedShape).Fail? {
      return None;
    }
    var ext := OverlayExtents(staticShape);
    if ext.None? {
      return None;
    }
    var sel := SelectPlane(sliType, ext.value);
    var slices: seq<F> := [];
    for i := 0 to sel.numSlices
      invariant |slices| == i
      invariant forall k :: 0 <= k < i ==> slices[k] == extract(sel.plane.value.Axis(), k)
    {
      slices := slices + [extract(sel.plane.value.Axis(), i)];
    }
    frames := Some(slices);
  }

  /**
   * animate_overlap_with_renderer: each slice actor is added to one renderer
   * that is never cleared, so frame k is the snapshot, after colour
   * reduction, of a scene holding the actors of slices 0 to k. snap(a, s)
   * stands for the snapshot of a scene holding the actors of the slices s
   * cut along axis number a; the returned scene lists the actors added, by
   * slice index.
   */
  method AnimateOverlapWithRenderer<F>(staticShape: seq<nat>, movedShape: seq<nat>, sliType: string, snap: (nat, seq<nat>) -> F)
    returns (frames: Option<seq<F>>, scene: seq<nat>)
    ensures frames.None? <==> !Animatable(staticShape, movedShape)
    ensures frames.None? ==> scene == []
    ensures frames.Some? ==>
      var sel := SelectionFor(staticShape, sliType);
      |frames.value| == sel.numSlices &&
      scene == seq(sel.numSlices, j => j) &&
      forall k :: 0 <= k < |frames.value| ==> frames.value[k] == snap(sel.plane.value.Axis(), seq(k + 1, j => j))
  {
    scene := [];
    if Preprocess(staticShape, movedShape).Fail? {
      return None, scene;
    }
    var ext := OverlayExtents(staticShape);
    if ext.None? {
      return None, scene;
    }
    var sel := SelectPlane(sliType, ext.value);
    var slices: seq<F> := [];
    for i := 0 to sel.numSlices
      invariant scene == seq(i, j => j)
      invariant |slices| == i
      invariant forall k :: 0 <= k < i ==> slices[k] == snap(sel.plane.value.Axis(), seq(k + 1, j => j))
    {
      scene := scene + [i];
      slices := slices + [snap(sel.plane.value.Axis(), scene)];
    }
    frames := Some(slices);
  }
}
