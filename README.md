# Registration overlay visualisation: the integer and control core

This project models the part of dipy's `VisualizeRegisteredImage` workflow
(`dipy/workflows/vis_registeration.py`) that can be stated exactly: how a
static and a moved volume are packed into a red/green overlay, how the
mosaic of axial slices is laid out and which slice each grid cell shows,
how an animation plane is chosen and which frames are produced, and the
rank check done before any of it. Rendering, file I/O and all
floating-point intensity work are outside the model.

Modules, one file each:

- `MosaicLayout` (`layout.dfy`): `get_row_cols`. The padding loop is
  `PadSlices`, and the divisor search is `GetRowCols`, proved against the
  smallest-multiple-of-5 function `PaddedCount` and the closed form `RowCols`.
- `Mosaic` (`mosaic.dfy`): the counter loop of `create_mosaic`. Each placed
  actor is a `Tile(row, col, slice)`.
- `Animation` (`animation.dfy`): shape unpacking, the selector chain and the
  frame loops (after `process_image_data`) of `animate_overlap` and `animate_overlap_with_renderer`.
  Slice extraction and snapshots are function parameters.
- `Dimensions` (`dimensions.dfy`): `check_dimensions`.
- `Overlay` (`overlay.dfy`): the cases in which `process_image_data` raises
  (empty volumes, a moved shape that does not broadcast), and its channel packing.
- `Wrappers` (`wrappers.dfy`): `Option` and `Outcome`. A raised exception
  is `None` or `Fail`.

Behaviour of the code that the model makes explicit:

- `get_row_cols` returns (0, 0) for 1 to 5 slices, so those volumes get an
  empty mosaic (see Findings).
- `check_dimensions` compares only the number of axes. A (10,10,10) static
  volume and a (10,10,5) moved volume pass it
  (`Dimensions.EqualRankDifferentExtentsPass`). `process_image_data` then
  fails when it assigns the moved volume into the overlay at line 39
  (`Overlay.RankCheckIsNotShapeCheck`).
- As written, `create_mosaic` raises NameError on its first cell: line 105
  reads the undefined names `X` and `Y` before the tile is added at line 109.
  So for more than 5 slices it places no tile at all. `Mosaic.PlaceTiles` and
  `Mosaic.MosaicAsWritten` model only the counter logic of lines 101-116, as
  if the tile positions were defined.

## Model

| member | source | states |
|---|---|---|
| MosaicLayout.PaddedCount | dipy/workflows/vis_registeration.py:61-64 | the padded count is a multiple of 5, is at least n and is below n + 5, and no smaller count at or above n is a multiple of 5 |
| MosaicLayout.PadSlices | dipy/workflows/vis_registeration.py:61-64 | the increment loop stops at the smallest multiple of 5 that is at least the input (the input itself when it is already one), after at most 4 increments |
| MosaicLayout.GetRowCols | dipy/workflows/vis_registeration.py:48-73 | when rows is set, it is the first divisor of the padded count in [5, padded) and rows * cols equals the padded count; otherwise no candidate in that range divides and the result is (0, 0); in closed form this is (5, padded / 5) above 5 slices and (0, 0) otherwise |
| MosaicLayout.GetRowColsInclusive | dipy/workflows/vis_registeration.py:66-71 | corrected search that also tries the padded count: every non-empty count gets 5 rows, with n <= rows * cols < n + 5 |
| MosaicLayout.RowColsCoversSlices | dipy/workflows/vis_registeration.py:66-71 | above 5 slices the layout has 5 rows, its cell count is the padded count, and that count covers every slice with fewer than 5 cells to spare |
| MosaicLayout.RowColsEmptyForFewSlices | dipy/workflows/vis_registeration.py:59-73 | for 1 to 5 slices the padded count is 5, the search range is empty, and the (0, 0) layout has fewer cells than slices |
| Mosaic.PlaceTiles | dipy/workflows/vis_registeration.py:95-116 | cells are visited in row-major order, and cell (j, i) shows slice j * cols + i; exactly min(rows * cols, numSlices + 1) tiles are placed; a tile shows index numSlices, one past the last slice, iff rows * cols > numSlices |
| Mosaic.PlaceSliceTiles | dipy/workflows/vis_registeration.py:101-116 | corrected loop that tests the counter before placing: min(rows * cols, numSlices) row-major tiles, each showing a real slice |
| Mosaic.MosaicAsWritten | dipy/workflows/vis_registeration.py:95-116 | the counter logic of create_mosaic, as if tile positions were defined: no tile for up to 5 slices; above 5 slices, min(padded, numSlices + 1) row-major tiles over 5 rows; a tile for the missing slice numSlices appears iff numSlices > 5 and is not a multiple of 5 |
| Mosaic.MosaicPlacement | dipy/workflows/vis_registeration.py:96-116 | corrected mosaic: exactly numSlices tiles, tile k shows slice k, all within 5 rows in row-major order |
| Animation.OverlayExtents | dipy/workflows/vis_registeration.py:170 | unpacking the overlay shape succeeds iff the volume has three axes, and then yields its extents in order |
| Animation.SelectPlane | dipy/workflows/vis_registeration.py:177-187 | exactly "saggital", "coronal" and "axial" select the sagittal, coronal and axial planes, with the x, y and z extent as slice count; any other string gives 0 slices and no plane |
| Animation.SelectedAxisMatchesExtent | dipy/workflows/vis_registeration.py:221-231 | the selected plane's axis number 0, 1 or 2 indexes the extent (x, y, z) that gives the slice count |
| Animation.DocumentedSpellingSelectsNothing | dipy/workflows/vis_registeration.py:209-231 | the documented spelling "sagital" selects nothing and yields zero slices |
| Animation.AnimateOverlap | dipy/workflows/vis_registeration.py:167-195 | raises iff preprocessing fails or the static volume does not have three axes; otherwise there is one frame per selected slice, and frame k is slice k cut along the selected axis number, in ascending order; an unknown selector gives no frames |
| Animation.AnimateOverlapWithRenderer | dipy/workflows/vis_registeration.py:217-250 | same failure cases, frame count and order; the renderer keeps every actor it is given, so frame k is the snapshot of a scene holding the actors of slices 0 to k along the selected axis, and the final scene holds slices 0 to numSlices - 1 |
| Animation.SelectPlaneDocumented | dipy/workflows/vis_registeration.py:158-187 | corrected selector: "sagital" and "saggital" both select the sagittal plane with the x extent; "coronal" and "axial" as before; any other string gives 0 slices |
| Animation.DocumentedSelectorExtendsCode | dipy/workflows/vis_registeration.py:179-187 | the corrected selector agrees with the code's selector on every string other than "sagital" |
| Overlay.Preprocess | dipy/workflows/vis_registeration.py:31-39 | process_image_data raises for a static volume with an empty axis (line 31); otherwise for a moved volume with an empty axis (line 33); otherwise when the moved shape does not broadcast into the static shape (line 39); it returns an overlay exactly when none of these holds |
| Overlay.SameShapePasses | dipy/workflows/vis_registeration.py:31-39 | two volumes of the same shape with no empty axis always pass preprocessing |
| Overlay.RankCheckIsNotShapeCheck | dipy/workflows/vis_registeration.py:37-39 | a 10x10x5 moved volume is refused for a 10x10x10 static volume, while 10x10x1 and 1x10x10x10 moved volumes broadcast and pass |
| Dimensions.CheckDimensions | dipy/workflows/vis_registeration.py:255-263 | fails with the dimension-mismatch error iff the two shapes have different numbers of axes |
| Dimensions.CheckDependsOnRankOnly | dipy/workflows/vis_registeration.py:260-263 | two pairs of shapes with the same ranks get the same verdict, whatever their extents |
| Dimensions.EqualRankDifferentExtentsPass | dipy/workflows/vis_registeration.py:260-263 | a (10,10,10) and a (10,10,5) volume pass; (10,10,10) against (10,10) fails |
| Overlay.PackOverlay | dipy/workflows/vis_registeration.py:36-39 | volumes with different voxel counts raise; otherwise the voxels x 3 overlay has, for every voxel, the static value in channel 0, the moved value in channel 1 and 0 in channel 2 |

## Findings

| source | as written | input that shows it | evidently intended | confidence | as-written member | corrected member |
|---|---|---|---|---|---|---|
| dipy/workflows/vis_registeration.py:66 | the divisor search runs over `range(5, num_slices)`, which is empty when the padded count is 5 | 3 slices: padded to 5, result (0, 0), so the mosaic has no tile | `range(5, num_slices + 1)`, so that 1 to 5 slices get a 5 x 1 grid | medium, not executed | MosaicLayout.GetRowCols | MosaicLayout.GetRowColsInclusive |
| dipy/workflows/vis_registeration.py:112-116 | the counter is compared with `cnt > num_slices` after the tile is placed | 6 slices, once the undefined tile positions at line 105 are supplied: a 5 x 2 grid, and tiles for slices 0 to 6 are placed, but slice 6 does not exist (as written, the NameError at line 105 is raised first) | place a tile only while `cnt < num_slices` | low, not executed | Mosaic.PlaceTiles | Mosaic.PlaceSliceTiles |
| dipy/workflows/vis_registeration.py:179 | the selector tests the spelling `'saggital'`, while the documentation of the selector (lines 160-162, 209-211, 284-287) offers `sagital` | `"sagital"`: no plane, zero slices; `write_gif` receives an empty frame list | accept the documented spelling as the sagittal plane | medium, not executed | Animation.DocumentedSpellingSelectsNothing | Animation.SelectPlaneDocumented |

`Mosaic.MosaicAsWritten` puts the first two defects together.
`Mosaic.MosaicPlacement` combines both corrections and places every slice
exactly once. The animation methods keep the selector as written;
`Animation.SelectPlaneDocumented` is the corrected selector.

## Left out

- Intensity normalisation `255 * (x - min) / (max - min)`, including its division by zero for a constant volume, and the float-to-uint8 cast. These are floating point. `Overlay.PackOverlay` takes the resulting bytes as given.
- The value range from the mean and standard deviation of nonzero voxels, and the `type_vis` dispatch that picks it. These are floating point.
- `adjust_color_range` and the `np.interp` remaps. These are float interpolation and rounding. In `Animation.AnimateOverlapWithRenderer` they are inside the `snap` parameter.
- All renderer and actor calls (`window.Renderer`, `actor.slicer`, `reset_camera`, `zoom`, `snapshot`, `window.record`). They are foreign rendering code. Only the renderer's growing actor list is modelled, as `scene`.
- Tile pixel positions. The source computes them from the undefined names `X` and `Y` and a float factor. Only the cell and the slice index are modelled.
- `overlay_slices`, `write_gif`, `load_affine_matrix`, `nib.load`. These are library and I/O calls whose code is not part of this model. Slice extraction is the `extract` parameter, and the frame list is the result instead of a GIF file.
- `run`: the input iterator, the flag dispatch and the logging. These are orchestration glue.
- Overlay.PackOverlay: voxels are a flat sequence, so shapes are not compared. A moved volume with extents of 1 that numpy would broadcast is refused because its voxel count differs. Two volumes with the same voxel count but different shapes, such as (2,3,4) and (4,3,2), are packed, although numpy raises for them at line 39. `Overlay.Preprocess` states the shape rule separately.
- Mosaic.PlaceTiles, Mosaic.MosaicAsWritten: the NameError that line 105 raises on the first cell is not modelled. Both give the tiles the counter logic would place if the positions were defined.
- Intensity statistics over an overlay with no nonzero voxel give NaN without raising, so they are not a failure case of `Overlay.Preprocess`.
- The selector's default `None` (lines 162, 211, 287): a `string` cannot hold it, and it behaves like any string that matches no plane, so it is modelled as such a string and gives zero slices.
