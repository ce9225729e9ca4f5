/** Host-side matrix layout shared by the CPU reference multiply, the device
    kernels, the command pipeline and the actors: matrices are flat vectors in
    row-major order, and the test inputs are filled with 0, 1, 2, ... */
module Layout {

  /** The vector `std::iota` produces on a zero-filled vector of length n. */
  function Iota(n: nat): seq<int>
  {
    seq(n, i => i)
  }

  /** Flat position of cell (col, row) of a size x size row-major matrix. */
  function Index2(size: nat, col: nat, row: nat): nat
  {
    size * row + col
  }

  /** Flat position of work item (x, y, z) in a size x size x size cube. */
  function Index3(size: nat, x: nat, y: nat, z: nat): nat
  {
    x + size * (y + size * z)
  }

  lemma MulLeftMono(a: nat, b: nat, c: nat)
    requires b <= c
    ensures a * b <= a * c
  {
  }

  /** A cell of a matrix with `rows` rows lies before position size*rows. */
  lemma {:induction false} Index2Below(size: nat, col: nat, row: nat, rows: nat)
    requires col < size && row < rows
    ensures Index2(size, col, row) < size * rows
  {
    MulLeftMono(size, row + 1, rows);
    assert size * (row + 1) == size * row + size;
  }

  /** Every in-range cell lies inside the size*size vector. */
  lemma Index2Bounds(size: nat, col: nat, row: nat)
    requires col < size && row < size
    ensures Index2(size, col, row) < size * size
  {
    Index2Below(size, col, row, size);
  }

  /** Row-major positions of distinct cells are distinct. */
  lemma {:induction false} Index2Injective(size: nat, c1: nat, r1: nat, c2: nat, r2: nat)
    requires c1 < size && c2 < size
    requires Index2(size, c1, r1) == Index2(size, c2, r2)
    ensures c1 == c2 && r1 == r2
  {
    if r1 != r2 {
      var lo, hi := if r1 < r2 then r1 else r2, if r1 < r2 then r2 else r1;
      MulLeftMono(size, lo + 1, hi);
    }
  }

  /** Every position below size*rows is the position of exactly one cell:
      the one at (i % size, i / size). */
  lemma {:induction false} Index2Onto(size: nat, i: nat, rows: nat)
    requires i < size * rows
    ensures size > 0
    ensures i % size < size && i / size < rows
    ensures Index2(size, i % size, i / size) == i
  {
    var q, r := i / size, i % size;
    assert i == size * q + r;
    if q >= rows {
      MulLeftMono(size, rows, q);
    }
  }

  /** The 3-D index of a work item of the cube stays inside the cube's vector. */
  lemma {:induction false} Index3Bounds(size: nat, x: nat, y: nat, z: nat)
    requires x < size && y < size && z < size
    ensures Index3(size, x, y, z) < size * (size * size)
  {
    Index2Bounds(size, y, z);
    Index2Below(size, x, y + size * z, size * size);
    assert Index3(size, x, y, z) == Index2(size, x, y + size * z);
  }

  /** Distinct work items of the cube write distinct positions. */
  lemma {:induction false} Index3Injective(size: nat, x1: nat, y1: nat, z1: nat, x2: nat, y2: nat, z2: nat)
    requires x1 < size && y1 < size && x2 < size && y2 < size
    requires Index3(size, x1, y1, z1) == Index3(size, x2, y2, z2)
    ensures x1 == x2 && y1 == y2 && z1 == z2
  {
    assert Index3(size, x1, y1, z1) == Index2(size, x1, Index2(size, y1, z1));
    assert Index3(size, x2, y2, z2) == Index2(size, x2, Index2(size, y2, z2));
    Index2Injective(size, x1, Index2(size, y1, z1), x2, Index2(size, y2, z2));
    Index2Injective(size, y1, z1, y2, z2);
  }

  /** Every position of the size^3 vector is written by some work item of
      the cube (together with Index3Injective: by exactly one). */
  lemma {:induction false} Index3Onto(size: nat, i: nat) returns (x: nat, y: nat, z: nat)
    requires i < size * (size * size)
    ensures x < size && y < size && z < size
    ensures Index3(size, x, y, z) == i
  {
    var q: nat;
    x, q := Index2Split(size, i, size * size);
    y, z := Index2Split(size, q, size);
  }

  /** Index2Onto without division in its statement: position i below
      size*rows is cell (col, row) for some col < size and row < rows. */
  lemma Index2Split(size: nat, i: nat, rows: nat) returns (col: nat, row: nat)
    requires i < size * rows
    ensures col < size && row < rows && Index2(size, col, row) == i
  {
    Index2Onto(size, i, rows);
    col, row := i % size, i / size;
  }

  /** The cell at a row-major position is recovered by % and /. */
  lemma Index2Digits(size: nat, col: nat, row: nat)
    requires col < size
    ensures Index2(size, col, row) % size == col && Index2(size, col, row) / size == row
  {
    var i := Index2(size, col, row);
    Index2Onto(size, i, row + 1) by {
      Index2Below(size, col, row, row + 1);
    }
    Index2Injective(size, i % size, i / size, col, row);
  }
}
