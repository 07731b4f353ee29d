/**
 * The mosaic row/column solver of the registration visualisation workflow
 * (get_row_cols): pad the slice count up to a multiple of 5, then take the
 * first divisor of the padded count, searching upward from 5.
 */
module MosaicLayout {

  /** d is a candidate row count that tiles m exactly. */
  predicate Divides(d: nat, m: nat)
  {
    d != 0 && m % d == 0
  }

  /** The smallest multiple of 5 that is at least n. */
  function PaddedCount(n: nat): (p: nat)
    ensures Divides(5, p) && n <= p < n + 5
    ensures forall q :: n <= q < p ==> !Divides(5, q)
  {
    n + (5 - n % 5) % 5
  }

  /** The layout get_row_cols returns, in closed form: five rows whenever the search range is non-empty. */
  function RowCols(numSlices: nat): (nat, nat)
  {
    if numSlices > 5 then (5, PaddedCount(numSlices) / 5) else (0, 0)
  }

  /**
   * The padding loop: increments the count one at a time until it is a
   * multiple of 5, so it stops at the smallest such multiple after at most
   * four increments.
   */
  method PadSlices(numSlices: nat) returns (padded: nat)
    ensures Divides(5, padded) && numSlices <= padded
    ensures forall q :: numSlices <= q < padded ==> !Divides(5, q)
    ensures padded - numSlices <= 4
  {
    padded := numSlices;
    while true
      invariant numSlices <= padded <= PaddedCount(numSlices)
      decreases PaddedCount(numSlices) - padded
    {
      if padded % 5 == 0 {
        break;
      }
      padded := padded + 1;
    }
  }

  /**
   * get_row_cols as written: the search for a divisor runs over 5 up to but
   * excluding the padded count, and the result stays (0, 0) when it finds none.
   */
  method GetRowCols(numSlices: nat) returns (rows: nat, cols: nat)
    ensures rows != 0 ==> 5 <= rows < PaddedCount(numSlices) && Divides(rows, PaddedCount(numSlices))
    ensures rows != 0 ==> rows * cols == PaddedCount(numSlices)
    ensures rows != 0 ==> forall k :: 5 <= k < rows ==> !Divides(k, PaddedCount(numSlices))
    ensures rows == 0 ==> cols == 0 && forall k :: 5 <= k < PaddedCount(numSlices) ==> !Divides(k, PaddedCount(numSlices))
    ensures (rows, cols) == RowCols(numSlices)
  {
    rows, cols := 0, 0;
    var padded := PadSlices(numSlices);
    if 5 <= padded {
      for i := 5 to padded
        invariant rows == 0 && cols == 0
        invariant forall k :: 5 <= k < i ==> !Divides(k, padded)
      {
        if padded % i == 0 {
          rows := i;
          cols := padded / i;
          break;
        }
      }
    }
  }

  /**
   * The corrected solver: the search also tries the padded count itself, so
   * every non-empty volume gets a layout.
   */
  method GetRowColsInclusive(numSlices: nat) returns (rows: nat, cols: nat)
    ensures numSlices == 0 ==> rows == 0 && cols == 0
    ensures numSlices > 0 ==> rows == 5 && rows * cols == PaddedCount(numSlices)
    ensures numSlices <= rows * cols < numSlices + 5
  {
    rows, cols := 0, 0;
    var padded := PadSlices(numSlices);
    if 5 <= padded {
      for i := 5 to padded + 1
        invariant rows == 0 && cols == 0
        invariant forall k :: 5 <= k < i ==> !Divides(k, padded)
      {
        if padded % i == 0 {
          rows := i;
          cols := padded / i;
          break;
        }
      }
    }
  }

  /** With more than five slices the layout has five rows and covers every slice with fewer than five spare cells. */
  lemma RowColsCoversSlices(numSlices: nat)
    requires numSlices > 5
    ensures RowCols(numSlices).0 == 5
    ensures RowCols(numSlices).0 * RowCols(numSlices).1 == PaddedCount(numSlices)
    ensures numSlices <= RowCols(numSlices).0 * RowCols(numSlices).1 < numSlices + 5
  {
  }

  /** With one to five slices the padded count is 5, the search range is empty and no cell is produced. */
  lemma RowColsEmptyForFewSlices(numSlices: nat)
    requires 1 <= numSlices <= 5
    ensures PaddedCount(numSlices) == 5
    ensures RowCols(numSlices) == (0, 0)
    ensures RowCols(numSlices).0 * RowCols(numSlices).1 < numSlices
  {
  }
}
