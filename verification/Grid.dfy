/** Buffers that hold rows of equal width: where a row starts, and what a write leaves alone. */
module Grid {
  import opened Prelude

  /** Where row y starts. */
  function Offset(y: nat, width: nat): nat {
    if y == 0 then 0 else Offset(y - 1, width) + width
  }

  lemma {:induction false} OffsetIsProduct(y: nat, width: nat)
    ensures Offset(y, width) == y * width
  {
    if y == 0 {
    } else {
      OffsetIsProduct(y - 1, width);
      assert y * width == (y - 1) * width + width;
    }
  }

  lemma {:induction false} RowsApart(width: nat, x: nat, y: nat)
    requires x < y
    ensures Offset(x, width) + width <= Offset(y, width)
  {
    if x < y - 1 { RowsApart(width, x, y - 1); }
  }

  /** Every byte of a plane lies in one of its rows. */
  lemma {:induction false} InSomeRow(width: nat, rows: nat, k: nat) returns (y: nat)
    requires k < Offset(rows, width)
    ensures y < rows && Offset(y, width) <= k < Offset(y, width) + width
  {
    if Offset(rows - 1, width) <= k { y := rows - 1; } else { y := InSomeRow(width, rows - 1, k); }
  }

  lemma {:induction false} TwiceTheRows(width: nat, rows: nat)
    ensures Offset(2 * rows, width) == 2 * Offset(rows, width)
  {
    if rows == 0 {
    } else {
      TwiceTheRows(width, rows - 1);
      assert Offset(2 * rows, width) == Offset(2 * rows - 2, width) + width + width;
    }
  }

  ghost predicate SameOutside(s: Bytes, t: Bytes, from: nat, to: nat) {
    |s| == |t| && forall k | 0 <= k < |s| && !(from <= k < to) :: s[k] == t[k]
  }
}
