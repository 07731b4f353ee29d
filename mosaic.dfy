/**
 * The tile sequencing of create_mosaic: a row-major walk over the grid that
 * hands each cell the next slice index and stops once the counter passes the
 * slice count. Pixel positions and rendering are not modelled; a tile records
 * only its cell and its slice index.
 */
module Mosaic {
  import MosaicLayout

  /** One slice actor placed in the mosaic: grid cell (row, col) showing slice `slice`. */
  datatype Tile = Tile(row: nat, col: nat, slice: nat)

  function Min(a: nat, b: nat): nat
  {
    if a <= b then a else b
  }

  /** Tile t is the k-th cell of a rows x cols grid in row-major order and shows slice k. */
  predicate RowMajorCell(t: Tile, k: nat, rows: nat, cols: nat)
  {
    t.slice == k && t.row < rows && t.col < cols && t.row * cols + t.col == k
  }

  /** Every tile of the list is the cell its position names, in row-major order. */
  predicate RowMajorTiles(tiles: seq<Tile>, rows: nat, cols: nat)
  {
    forall k :: 0 <= k < |tiles| ==> RowMajorCell(tiles[k], k, rows, cols)
  }

  lemma MulMonotone(a: nat, b: nat, c: nat)
    requires a <= b
    ensures a * c <= b * c
  {
  }

  /**
   * The nested loop of create_mosaic as written: the counter is advanced after
   * each placement and the loops stop once it exceeds the slice count, so
   * min(rows * cols, numSlices + 1) tiles are placed and the index one past
   * the last slice is among them whenever the grid has room for it.
   */
  method PlaceTiles(rows: nat, cols: nat, numSlices: nat) returns (tiles: seq<Tile>)
    ensures |tiles| == Min(rows * cols, numSlices + 1)
    ensures RowMajorTiles(tiles, rows, cols)
    ensures (exists k :: 0 <= k < |tiles| && tiles[k].slice == numSlices) <==> rows * cols > numSlices
  {
    tiles := [];
    var cnt := 0;
    for j := 0 to rows
      invariant cnt == j * cols <= numSlices
      invariant |tiles| == cnt && RowMajorTiles(tiles, rows, cols)
    {
      for i := 0 to cols
        invariant cnt == j * cols + i <= numSlices
        invariant |tiles| == cnt && RowMajorTiles(tiles, rows, cols)
      {
        tiles := tiles + [Tile(j, i, cnt)];
        cnt := cnt + 1;
        if cnt > numSlices {
          break;
        }
      }
      if cnt > numSlices {
        MulMonotone(j + 1, rows, cols);
        break;
      }
    }
    if |tiles| == numSlices + 1 {
      assert tiles[numSlices].slice == numSlices;
    }
  }

  /**
   * The evidently intended loop: the counter is compared with the slice count
   * before a tile is placed, so only real slices are shown.
   */
  method PlaceSliceTiles(rows: nat, cols: nat, numSlices: nat) returns (tiles: seq<Tile>)
    ensures |tiles| == Min(rows * cols, numSlices)
    ensures RowMajorTiles(tiles, rows, cols)
    ensures forall k :: 0 <= k < |tiles| ==> tiles[k].slice < numSlices
  {
    tiles := [];
    var cnt := 0;
    for j := 0 to rows
      invariant cnt == j * cols <= numSlices
      invariant |tiles| == cnt && RowMajorTiles(tiles, rows, cols)
    {
      for i := 0 to cols
        invariant cnt == j * cols + i <= numSlices
        invariant |tiles| == cnt && RowMajorTiles(tiles, rows, cols)
      {
        if cnt >= numSlices {
          break;
        }
        tiles := tiles + [Tile(j, i, cnt)];
        cnt := cnt + 1;
      }
      if cnt >= numSlices {
        MulMonotone(j + 1, rows, cols);
        break;
      }
    }
  }

  /**
   * create_mosaic's grid as written: the as-written layout followed by the
   * as-written tile loop. Up to five slices nothing is placed; above five, a
   * slice count that is not a multiple of 5 also gets a tile for the
   * non-existent slice numSlices.
   */
  method MosaicAsWritten(numSlices: nat) returns (tiles: seq<Tile>)
    ensures numSlices <= 5 ==> tiles == []
    ensures numSlices > 5 ==> |tiles| == Min(MosaicLayout.PaddedCount(numSlices), numSlices + 1)
    ensures numSlices > 5 ==> RowMajorTiles(tiles, 5, MosaicLayout.PaddedCount(numSlices) / 5)
    ensures (exists k :: 0 <= k < |tiles| && tiles[k].slice == numSlices) <==> numSlices > 5 && numSlices % 5 != 0
  {
    var rows, cols := MosaicLayout.GetRowCols(numSlices);
    tiles := PlaceTiles(rows, cols, numSlices);
  }

  /**
   * The corrected mosaic: the inclusive layout and the bounded tile loop
   * together place every slice exactly once, in row-major order over five rows.
   */
  method MosaicPlacement(numSlices: nat) returns (tiles: seq<Tile>)
    ensures |tiles| == numSlices
    ensures forall k :: 0 <= k < |tiles| ==> tiles[k].slice == k && tiles[k].row < 5
    ensures RowMajorTiles(tiles, 5, MosaicLayout.PaddedCount(numSlices) / 5)
  {
    var rows, cols := MosaicLayout.GetRowColsInclusive(numSlices);
    tiles := PlaceSliceTiles(rows, cols, numSlices);
  }
}
