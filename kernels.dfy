/** The OpenCL C kernels of kernel.hpp. A launch over an N-dimensional
    range runs the kernel body once per work item; get_global_id(d),
    get_global_size(d), get_local_id(d) and get_local_size(d) are as in
    section 6.12.1 of the OpenCL 1.2 specification (the local id is the
    global id modulo the local size). A launch is modelled as loops over all
    global ids that run the work-item body in turn; since distinct work items
    of these kernels write distinct cells, the order is immaterial. Buffer
    elements are modelled as integers. */
module Kernels {
  import opened Layout
  import CpuMatrix

  const IntMin: int := -0x8000_0000
  const IntMax: int := 0x7fff_ffff

  predicate InInt(v: int)
  {
    IntMin <= v <= IntMax
  }

  /** matrix1[idx + y * size] * matrix2[x + idx * size] */
  function Term(m1: seq<int>, m2: seq<int>, size: nat, x: nat, y: nat, idx: nat): int
    requires |m1| == size * size && |m2| == size * size
    requires x < size && y < size && idx < size
  {
    Index2Bounds(size, idx, y);
    Index2Bounds(size, x, idx);
    m1[idx + y * size] * m2[x + idx * size]
  }

  /** The kernel's accumulator after n rounds of its loop. */
  function MultSum(m1: seq<int>, m2: seq<int>, size: nat, x: nat, y: nat, n: nat): int
    requires |m1| == size * size && |m2| == size * size
    requires x < size && y < size && n <= size
  {
    if n == 0 then 0 else MultSum(m1, m2, size, x, y, n - 1) + Term(m1, m2, size, x, y, n - 1)
  }

  /** What work item (x, y) of matrix_mult writes at output[x + y * size]. */
  function MultCell(m1: seq<int>, m2: seq<int>, size: nat, x: nat, y: nat): int
    requires |m1| == size * size && |m2| == size * size
    requires x < size && y < size
  {
    MultSum(m1, m2, size, x, y, size)
  }

  /** The product cell at flat position i = x + y * size. */
  function MultAt(m1: seq<int>, m2: seq<int>, size: nat, i: nat): int
    requires |m1| == size * size && |m2| == size * size && i < size * size
  {
    Index2Onto(size, i, size);
    MultCell(m1, m2, size, i % size, i / size)
  }

  lemma MultAtIndex(m1: seq<int>, m2: seq<int>, size: nat, x: nat, y: nat)
    requires |m1| == size * size && |m2| == size * size && x < size && y < size
    ensures Index2(size, x, y) < size * size
    ensures MultAt(m1, m2, size, Index2(size, x, y)) == MultCell(m1, m2, size, x, y)
  {
    Index2Bounds(size, x, y);
    Index2Digits(size, x, y);
  }

  /** matrix_mult_int's int arithmetic stays in range: every product and
      every partial sum of every work item fits in 32 bits (signed overflow
      is undefined in OpenCL C). */
  ghost predicate NoOverflow(m1: seq<int>, m2: seq<int>, size: nat)
    requires |m1| == size * size && |m2| == size * size
  {
    && (forall x: nat, y: nat, n: nat :: x < size && y < size && n <= size ==> InInt(MultSum(m1, m2, size, x, y, n)))
    && (forall x: nat, y: nat, idx: nat :: x < size && y < size && idx < size ==> InInt(Term(m1, m2, size, x, y, idx)))
  }

  /** With x the column and y the row, the kernel computes exactly the CPU
      reference's dot_product: the two index layouts agree. */
  lemma {:induction false} MultSumIsDotUpTo(m1: seq<int>, m2: seq<int>, size: nat, x: nat, y: nat, n: nat)
    requires |m1| == size * size && |m2| == size * size
    requires x < size && y < size && n <= size
    ensures MultSum(m1, m2, size, x, y, n) == CpuMatrix.DotUpTo(m1, m2, size, x, y, n)
  {
    if n > 0 {
      MultSumIsDotUpTo(m1, m2, size, x, y, n - 1);
      assert Term(m1, m2, size, x, y, n - 1)
          == CpuMatrix.Get(m1, size, n - 1, y) * CpuMatrix.Get(m2, size, x, n - 1);
    }
  }

  lemma MultCellIsDot(m1: seq<int>, m2: seq<int>, size: nat, x: nat, y: nat)
    requires |m1| == size * size && |m2| == size * size && x < size && y < size
    ensures MultCell(m1, m2, size, x, y) == CpuMatrix.Dot(m1, m2, size, x, y)
  {
    MultSumIsDotUpTo(m1, m2, size, x, y, size);
  }

  /** The body of matrix_mult / matrix_mult_int / matrix_sqr for work item
      (x, y): accumulate over idx < size (kernel.hpp:15-39, 71-81). */
  method MultWorkItem(m1: array<int>, m2: array<int>, size: nat, x: nat, y: nat) returns (result: int)
    requires m1.Length == size * size && m2.Length == size * size && x < size && y < size
    ensures result == MultCell(m1[..], m2[..], size, x, y)
  {
    result := 0;
    var idx := 0;
    while idx < size
      invariant idx <= size
      invariant result == MultSum(m1[..], m2[..], size, x, y, idx)
    {
      Index2Bounds(size, idx, y);
      Index2Bounds(size, x, idx);
      result := result + m1[idx + y * size] * m2[x + idx * size];
      idx := idx + 1;
    }
  }

  /** Launch of a matrix kernel over the 2-D range (size, size): every cell
      (x, y) of output receives the product cell of matrix1 and matrix2. */
  method LaunchMult(m1: array<int>, m2: array<int>, output: array<int>, size: nat)
    requires m1.Length == size * size && m2.Length == size * size && output.Length == size * size
    requires output != m1 && output != m2
    modifies output
    ensures forall x: nat, y: nat :: x < size && y < size ==>
              CpuMatrix.Get(output[..], size, x, y) == MultCell(m1[..], m2[..], size, x, y)
  {
    var y := 0;
    while y < size
      invariant y <= size
      invariant forall i :: 0 <= i < size * y ==> output[i] == MultAt(m1[..], m2[..], size, i)
    {
      MulLeftMono(size, y + 1, size);
      assert size * (y + 1) == size * y + size;
      LaunchMultRow(m1, m2, output, size, y, size * y);
      y := y + 1;
    }
    forall x: nat, y: nat | x < size && y < size
      ensures CpuMatrix.Get(output[..], size, x, y) == MultCell(m1[..], m2[..], size, x, y)
    {
      MultAtIndex(m1[..], m2[..], size, x, y);
    }
  }

  /** The work items (0, y) .. (size - 1, y), which write the cells from
      flat position start = y * size on. */
  method LaunchMultRow(m1: array<int>, m2: array<int>, output: array<int>, size: nat, y: nat, start: nat)
    requires m1.Length == size * size && m2.Length == size * size && output.Length == size * size
    requires output != m1 && output != m2 && y < size
    requires start == size * y && start + size <= size * size
    requires forall i :: 0 <= i < start ==> output[i] == MultAt(m1[..], m2[..], size, i)
    modifies output
    ensures forall i :: 0 <= i < start + size ==> output[i] == MultAt(m1[..], m2[..], size, i)
  {
    var x, pos := 0, start;
    while x < size
      invariant x <= size && pos == start + x
      invariant forall i :: 0 <= i < pos ==> output[i] == MultAt(m1[..], m2[..], size, i)
    {
      MultAtIndex(m1[..], m2[..], size, x, y);
      var result := MultWorkItem(m1, m2, size, x, y);
      output[x + y * size] := result;
      x, pos := x + 1, pos + 1;
    }
  }

  /** matrix_mult_int (kernel.hpp:28-39): output[x + y * size] is the sum
      over idx of matrix1[idx + y * size] * matrix2[x + idx * size], which is
      the CPU reference's dot_product for column x and row y. */
  method MatrixMultInt(matrix1: array<int>, matrix2: array<int>, output: array<int>, size: nat)
    requires matrix1.Length == size * size && matrix2.Length == size * size && output.Length == size * size
    requires output != matrix1 && output != matrix2
    requires NoOverflow(matrix1[..], matrix2[..], size)
    modifies output
    ensures forall x: nat, y: nat :: x < size && y < size ==>
              CpuMatrix.Get(output[..], size, x, y) == MultCell(matrix1[..], matrix2[..], size, x, y)
              && CpuMatrix.Get(output[..], size, x, y) == CpuMatrix.Dot(matrix1[..], matrix2[..], size, x, y)
  {
    LaunchMult(matrix1, matrix2, output, size);
    forall x: nat, y: nat | x < size && y < size
      ensures CpuMatrix.Get(output[..], size, x, y) == CpuMatrix.Dot(matrix1[..], matrix2[..], size, x, y)
    {
      MultCellIsDot(matrix1[..], matrix2[..], size, x, y);
    }
  }

  /** matrix_mult (kernel.hpp:15-26): the same index layout as
      matrix_mult_int on float elements. */
  method MatrixMult(matrix1: array<int>, matrix2: array<int>, output: array<int>, size: nat)
    requires matrix1.Length == size * size && matrix2.Length == size * size && output.Length == size * size
    requires output != matrix1 && output != matrix2
    modifies output
    ensures forall x: nat, y: nat :: x < size && y < size ==>
              CpuMatrix.Get(output[..], size, x, y) == MultCell(matrix1[..], matrix2[..], size, x, y)
  {
    LaunchMult(matrix1, matrix2, output, size);
  }

  /** matrix_sqr (kernel.hpp:71-81): matrix_mult with both operands read
      from the one input buffer. */
  method MatrixSqr(matrix: array<int>, output: array<int>, size: nat)
    requires matrix.Length == size * size && output.Length == size * size && output != matrix
    modifies output
    ensures forall x: nat, y: nat :: x < size && y < size ==>
              CpuMatrix.Get(output[..], size, x, y) == MultCell(matrix[..], matrix[..], size, x, y)
  {
    LaunchMult(matrix, matrix, output, size);
  }

  /** The buffer after copying input[0 .. n) over output. */
  function CopiedPrefix(output: seq<int>, input: seq<int>, n: nat): (r: seq<int>)
    requires n <= |input| && n <= |output|
  {
    input[..n] + output[n..]
  }

  /** cpy over the 1-D range n (kernel.hpp:83-86): work item idx copies
      input[idx] to output[idx]. */
  method Cpy(input: array<int>, output: array<int>, n: nat)
    requires n <= input.Length && n <= output.Length && input != output
    modifies output
    ensures output[..] == CopiedPrefix(old(output[..]), input[..], n)
  {
    var idx := 0;
    while idx < n
      invariant idx <= n
      invariant output[..] == CopiedPrefix(old(output[..]), input[..], idx)
    {
      output[idx] := input[idx];
      idx := idx + 1;
    }
  }

  /** cpy_more over the 1-D range n (kernel.hpp:88-96): only work item 0
      writes, copying all n elements in a loop; the result is the same as
      cpy's. */
  method CpyMore(input: array<int>, output: array<int>, n: nat)
    requires n <= input.Length && n <= output.Length && input != output
    modifies output
    ensures output[..] == CopiedPrefix(old(output[..]), input[..], n)
  {
    var x := 0;
    while x < n
      invariant x <= n
      invariant output[..] == if x == 0 then old(output[..]) else CopiedPrefix(old(output[..]), input[..], n)
    {
      if x == 0 {
        var i := 0;
        while i < n
          invariant i <= n
          invariant output[..] == CopiedPrefix(old(output[..]), input[..], i)
        {
          output[i] := input[i];
          i := i + 1;
        }
      }
      x := x + 1;
    }
    if n == 0 {
      assert CopiedPrefix(old(output[..]), input[..], 0) == old(output[..]);
    }
  }

  /** cpy_3d over the 3-D range (size, size, size) (kernel.hpp:98-104):
      work item (x, y, z) copies the cell x + size * (y + size * z); those
      indices cover [0, size^3) exactly once (Layout.Index3Bounds,
      Index3Injective, Index3Onto), so the whole cube is copied. */
  method Cpy3d(input: array<int>, output: array<int>, size: nat)
    requires input.Length == size * (size * size) && output.Length == size * (size * size)
    requires input != output
    modifies output
    ensures output[..] == input[..]
  {
    var z := 0;
    while z < size
      invariant z <= size
      invariant size * (size * z) <= output.Length
      invariant output[..] == CopiedPrefix(old(output[..]), input[..], size * (size * z))
    {
      NextPlane(size, z);
      Cpy3dPlane(input, output, old(output[..]), size, z, size * (size * z));
      z := z + 1;
    }
    assert output[..] == CopiedPrefix(old(output[..]), input[..], output.Length);
  }

  /** Plane z + 1 starts size * size cells after plane z and, for z < size,
      ends inside the cube. */
  lemma NextPlane(size: nat, z: nat)
    requires z < size
    ensures size * (size * (z + 1)) == size * (size * z) + size * size
    ensures size * (size * (z + 1)) <= size * (size * size)
  {
    MulLeftMono(size * size, z + 1, size);
    assert size * (size * (z + 1)) == size * size * (z + 1);
  }

  /** The work items with third id z: they copy the plane of size * size
      cells from flat position start = size * (size * z) on. */
  method Cpy3dPlane(input: array<int>, output: array<int>, ghost orig: seq<int>, size: nat, z: nat, start: nat)
    requires input.Length == output.Length == |orig| && input != output
    requires start == size * (size * z) && start + size * size <= output.Length
    requires output[..] == CopiedPrefix(orig, input[..], start)
    modifies output
    ensures output[..] == CopiedPrefix(orig, input[..], start + size * size)
  {
    var y, pos := 0, start;
    Index3Rows(size, 0, z);
    while y < size
      invariant y <= size && pos == Index3(size, 0, y, z) && pos <= output.Length
      invariant output[..] == CopiedPrefix(orig, input[..], pos)
    {
      Index3Rows(size, y, z);
      Cpy3dRow(input, output, orig, size, y, z, pos);
      y, pos := y + 1, pos + size;
    }
    Index3Rows(size, size, z);
  }

  /** Rows of a plane of the cube follow one another in the flat vector. */
  lemma Index3Rows(size: nat, y: nat, z: nat)
    ensures Index3(size, 0, 0, z) == size * (size * z)
    ensures Index3(size, 0, y + 1, z) == Index3(size, 0, y, z) + size
    ensures Index3(size, 0, size, z) == size * (size * z) + size * size
    ensures y < size ==> Index3(size, 0, y, z) + size <= Index3(size, 0, size, z)
  {
    assert size * (y + 1 + size * z) == size * (y + size * z) + size;
    assert size * (size + size * z) == size * size + size * (size * z);
    if y < size {
      MulLeftMono(size, y + 1 + size * z, size + size * z);
    }
  }

  /** The work items (0, y, z) .. (size - 1, y, z), which copy the cells
      from flat position start = Index3(size, 0, y, z) on. */
  method Cpy3dRow(input: array<int>, output: array<int>, ghost orig: seq<int>, size: nat, y: nat, z: nat, start: nat)
    requires input.Length == output.Length == |orig| && input != output
    requires start == Index3(size, 0, y, z) && start + size <= output.Length
    requires output[..] == CopiedPrefix(orig, input[..], start)
    modifies output
    ensures output[..] == CopiedPrefix(orig, input[..], start + size)
  {
    var x := 0;
    while x < size
      invariant x <= size
      invariant output[..] == CopiedPrefix(orig, input[..], start + x)
    {
      output[Index3(size, x, y, z)] := input[Index3(size, x, y, z)];
      x := x + 1;
    }
  }

  /** What l_dim_1 leaves in output over the 1-D range `global` with work
      groups of `local` items (kernel.hpp:41-49): the first item of each
      group writes the local size at its global position; the others write
      nothing. */
  function LDim1Result(output: seq<int>, global: nat, local: nat): (r: seq<int>)
    requires local > 0 && global <= |output|
  {
    seq(|output|, i requires 0 <= i < |output| => if i < global && i % local == 0 then local else output[i])
  }

  method LDim1(input: array<int>, output: array<int>, global: nat, local: nat)
    requires local > 0 && global % local == 0 && global <= output.Length
    modifies output
    ensures output[..] == LDim1Result(old(output[..]), global, local)
  {
    var pos := 0;
    while pos < global
      invariant pos <= global
      invariant forall i :: 0 <= i < output.Length ==>
                  output[i] == if i < pos && i % local == 0 then local else old(output[i])
    {
      var lId := pos % local;
      if lId == 0 {
        output[pos] := local;
      }
      pos := pos + 1;
    }
  }

  /** The value l_dim_2's work item with local ids (l0, l1) writes, or
      `current` when it writes nothing (kernel.hpp:59-67): local (0, 0)
      writes the local size of dimension 0; local (0, 1) and local (1, 0)
      both write the local size of dimension 1. */
  function LDim2Value(l0: nat, l1: nat, lSize0: nat, lSize1: nat, current: int): int
  {
    if l0 == 0 && l1 == 0 then lSize0
    else if l0 == 0 && l1 == 1 then lSize1
    else if l0 == 1 && l1 == 0 then lSize1
    else current
  }

  /** The cell at flat position i = y * g0 + x after l_dim_2 over the 2-D
      range (g0, g1) with work groups (lSize0, lSize1). */
  function LDim2At(output: seq<int>, g0: nat, lSize0: nat, lSize1: nat, i: nat): int
    requires g0 > 0 && lSize0 > 0 && lSize1 > 0 && i < |output|
  {
    var x, y := i % g0, i / g0;
    LDim2Value(x % lSize0, y % lSize1, lSize0, lSize1, output[i])
  }

  /** Cell (x, y) of a row-major buffer `width` cells wide. */
  function Cell(m: seq<int>, width: nat, x: nat, y: nat): int
    requires x < width && Index2(width, x, y) < |m|
  {
    m[Index2(width, x, y)]
  }

  method LDim2(input: array<int>, output: array<int>, g0: nat, g1: nat, lSize0: nat, lSize1: nat)
    requires lSize0 > 0 && lSize1 > 0 && g0 % lSize0 == 0 && g1 % lSize1 == 0
    requires g0 * g1 <= output.Length
    modifies output
    ensures forall i :: g0 * g1 <= i < output.Length ==> output[i] == old(output[i])
    ensures forall x: nat, y: nat :: x < g0 && y < g1 ==>
              Index2(g0, x, y) < output.Length &&
              Cell(output[..], g0, x, y)
              == LDim2Value(x % lSize0, y % lSize1, lSize0, lSize1, Cell(old(output[..]), g0, x, y))
  {
    var y := 0;
    while y < g1
      invariant y <= g1
      invariant forall i :: 0 <= i < g0 * y ==> output[i] == LDim2At(old(output[..]), g0, lSize0, lSize1, i)
      invariant forall i :: g0 * y <= i < output.Length ==> output[i] == old(output[i])
    {
      MulLeftMono(g0, y + 1, g1);
      assert g0 * (y + 1) == g0 * y + g0;
      LDim2Row(output, old(output[..]), g0, g1, lSize0, lSize1, y, g0 * y);
      y := y + 1;
    }
    forall x: nat, y: nat | x < g0 && y < g1
      ensures Index2(g0, x, y) < output.Length
      ensures Cell(output[..], g0, x, y)
              == LDim2Value(x % lSize0, y % lSize1, lSize0, lSize1, Cell(old(output[..]), g0, x, y))
    {
      Index2Below(g0, x, y, g1);
      Index2Digits(g0, x, y);
    }
  }

  /** The work items (0, y) .. (g0 - 1, y) of l_dim_2. */
  method LDim2Row(output: array<int>, ghost orig: seq<int>, g0: nat, g1: nat, lSize0: nat, lSize1: nat, y: nat, start: nat)
    requires lSize0 > 0 && lSize1 > 0 && g0 * g1 <= output.Length == |orig| && y < g1
    requires start == g0 * y && start + g0 <= g0 * g1
    requires forall i :: 0 <= i < start ==> output[i] == LDim2At(orig, g0, lSize0, lSize1, i)
    requires forall i :: start <= i < output.Length ==> output[i] == orig[i]
    modifies output
    ensures forall i :: 0 <= i < start + g0 ==> output[i] == LDim2At(orig, g0, lSize0, lSize1, i)
    ensures forall i :: start + g0 <= i < output.Length ==> output[i] == orig[i]
  {
    var x, pos := 0, start;
    while x < g0
      invariant x <= g0 && pos == start + x
      invariant forall i :: 0 <= i < pos ==> output[i] == LDim2At(orig, g0, lSize0, lSize1, i)
      invariant forall i :: pos <= i < output.Length ==> output[i] == orig[i]
    {
      Index2Digits(g0, x, y);
      var l0, l1 := x % lSize0, y % lSize1;
      if l0 == 0 && l1 == 0 {
        output[y * g0 + x] := lSize0;
      } else if l0 == 0 && l1 == 1 {
        output[y * g0 + x] := lSize1;
      } else if l0 == 1 && l1 == 0 {
        output[y * g0 + x] := lSize1;
      }
      x, pos := x + 1, pos + 1;
    }
  }
}
