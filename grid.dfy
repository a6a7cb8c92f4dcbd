/**
 * The grid helper of helper_functions.py: Manhattan distance between two
 * cells, and the row-major numbering of the cells of an n-column grid.
 * Python integers are unbounded, like Dafny's `int`; Python's `divmod` by a
 * positive divisor agrees with Dafny's Euclidean `/` and `%`.
 */
module Grid {

  /** A cell `(row, col)`. */
  datatype Coord = Coord(row: int, col: int)

  /** The grid shape `(rows, cols)`. */
  datatype GridSize = GridSize(rows: int, cols: int)

  function Abs(x: int): nat
  {
    if x < 0 then -x else x
  }

  /** `calculate_manhattan_distance`: never negative, and zero exactly on equal cells. */
  function ManhattanDistance(a: Coord, b: Coord): (d: nat)
    ensures d == 0 <==> a == b
  {
    Abs(a.row - b.row) + Abs(a.col - b.col)
  }

  lemma DistanceSymmetric(a: Coord, b: Coord)
    ensures ManhattanDistance(a, b) == ManhattanDistance(b, a)
  {
  }

  lemma TriangleInequality(a: Coord, b: Coord, c: Coord)
    ensures ManhattanDistance(a, c) <= ManhattanDistance(a, b) + ManhattanDistance(b, c)
  {
  }

  /** `coord_to_index` of a `GridHelper` built with `n`: a cell of an n-by-n grid numbers into `[0, n*n)`. */
  function CoordToIndex(n: int, x: int, y: int): (r: int)
    ensures 0 <= x < n && 0 <= y < n ==> 0 <= r < n * n
  {
    assert 0 <= x < n ==> x * n <= (n - 1) * n by {
      if 0 <= x < n - 1 {
        MulAtLeast(n - 1 - x, n);
      }
    }
    x * n + y
  }

  /**
   * `index_to_coord`: `divmod(index, n)`, the quotient and a remainder of
   * the divisor's sign that number the index back; Python raises
   * ZeroDivisionError for `n == 0`.
   */
  function IndexToCoord(n: int, index: int): (c: Coord)
    requires n != 0
    ensures CoordToIndex(n, c.row, c.col) == index
    ensures n > 0 ==> 0 <= c.col < n
    ensures n < 0 ==> n < c.col <= 0
  {
    if n > 0 then Coord(index / n, index % n)
    else Coord(FloorDiv(index, n), index - n * FloorDiv(index, n))
  }

  /** Python's floor division `a // b`, for either sign of `b`. */
  function FloorDiv(a: int, b: int): (q: int)
    requires b != 0
    ensures b > 0 ==> q * b <= a < q * b + b
    ensures b < 0 ==> q * b + b < a <= q * b
  {
    if b > 0 then a / b
    else if a % -b == 0 then -(a / -b)
    else -(a / -b) - 1
  }

  /** Quotient and remainder by a positive divisor are unique. */
  lemma DivModUnique(i: int, n: int, q: int, r: int)
    requires n > 0 && 0 <= r < n && i == q * n + r
    ensures i / n == q && i % n == r
  {
    var q0, r0 := i / n, i % n;
    assert (q0 - q) * n == r - r0;
    if q0 > q {
      MulAtLeast(q0 - q, n);
    } else if q0 < q {
      MulAtLeast(q - q0, n);
    }
  }

  lemma MulAtLeast(k: int, n: int)
    requires k >= 1 && n > 0
    ensures k * n >= n
  {
  }

  /** Decoding an encoded cell gives the cell back, for every column inside the grid. */
  lemma {:induction false} IndexToCoordInverse(n: int, x: int, y: int)
    requires n > 0 && 0 <= y < n
    ensures IndexToCoord(n, CoordToIndex(n, x, y)) == Coord(x, y)
  {
    DivModUnique(CoordToIndex(n, x, y), n, x, y);
  }
}
