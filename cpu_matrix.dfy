/** The CPU reference multiply of cpu_matrix.cpp: square matrices stored as
    flat row-major vectors; element values are modelled as integers. */
module CpuMatrix {
  import opened Layout

  /** get(m, size, col, row): the element at m[size * row + col]
      (cpu_matrix.cpp:21-27); in bounds by Layout.Index2Bounds. */
  function Get(m: seq<int>, size: nat, col: nat, row: nat): (r: int)
    requires |m| == size * size && col < size && row < size
    ensures size * row + col < |m| && r == m[size * row + col]
  {
    Index2Bounds(size, col, row);
    m[Index2(size, col, row)]
  }

  /** The sum over k < n of lhs(k, row) * rhs(column, k). */
  function DotUpTo(lhs: seq<int>, rhs: seq<int>, size: nat, column: nat, row: nat, n: nat): int
    requires |lhs| == size * size && |rhs| == size * size
    requires column < size && row < size && n <= size
  {
    if n == 0 then 0
    else DotUpTo(lhs, rhs, size, column, row, n - 1) + Get(lhs, size, n - 1, row) * Get(rhs, size, column, n - 1)
  }

  /** Cell (column, row) of the product lhs * rhs. */
  function Dot(lhs: seq<int>, rhs: seq<int>, size: nat, column: nat, row: nat): int
    requires |lhs| == size * size && |rhs| == size * size
    requires column < size && row < size
  {
    DotUpTo(lhs, rhs, size, column, row, size)
  }

  /** dot_product: row `row` of lhs times column `column` of rhs, summed
      with a loop over k (cpu_matrix.cpp:29-35). */
  method DotProduct(lhs: seq<int>, rhs: seq<int>, size: nat, column: nat, row: nat) returns (result: int)
    requires |lhs| == size * size && |rhs| == size * size
    requires column < size && row < size
    ensures result == Dot(lhs, rhs, size, column, row)
  {
    result := 0;
    var k := 0;
    while k < size
      invariant k <= size
      invariant result == DotUpTo(lhs, rhs, size, column, row, k)
    {
      result := result + Get(lhs, size, k, row) * Get(rhs, size, column, k);
      k := k + 1;
    }
  }

  /** simple_multiply: a zero-filled size*size result whose cells are
      written row by row, column by column, with dot_product
      (cpu_matrix.cpp:37-43). `writes` records the positions written, in
      order: each cell exactly once. For size 0 the result is empty. */
  method SimpleMultiply(lhs: seq<int>, rhs: seq<int>, size: nat) returns (result: seq<int>, ghost writes: seq<int>)
    requires |lhs| == size * size && |rhs| == size * size
    ensures |result| == size * size
    ensures forall column: nat, row: nat :: column < size && row < size ==>
              Get(result, size, column, row) == Dot(lhs, rhs, size, column, row)
    ensures writes == Iota(size * size)
  {
    var a := new int[size * size](_ => 0);
    writes := [];
    var row := 0;
    while row < size
      invariant row <= size
      invariant forall i :: 0 <= i < size * row ==> a[i] == CellAt(lhs, rhs, size, i)
      invariant writes == Iota(size * row)
    {
      MulLeftMono(size, row + 1, size);
      assert size * (row + 1) == size * row + size;
      writes := MultiplyRow(a, lhs, rhs, size, row, size * row, writes);
      row := row + 1;
    }
    result := a[..];
    forall column: nat, row: nat | column < size && row < size
      ensures Get(result, size, column, row) == Dot(lhs, rhs, size, column, row)
    {
      CellAtIndex(lhs, rhs, size, column, row);
    }
  }

  /** The inner loop of simple_multiply: the cells of row `row`, which
      start at flat position `start`, left to right. */
  method MultiplyRow(a: array<int>, lhs: seq<int>, rhs: seq<int>, size: nat, row: nat, start: nat, ghost writes: seq<int>)
    returns (ghost writes': seq<int>)
    requires |lhs| == size * size && |rhs| == size * size && a.Length == size * size && row < size
    requires start == size * row && start + size <= size * size
    requires forall i :: 0 <= i < start ==> a[i] == CellAt(lhs, rhs, size, i)
    requires writes == Iota(start)
    modifies a
    ensures forall i :: 0 <= i < start + size ==> a[i] == CellAt(lhs, rhs, size, i)
    ensures writes' == Iota(start + size)
  {
    writes' := writes;
    var column, pos := 0, start;
    while column < size
      invariant column <= size && pos == start + column
      invariant forall i :: 0 <= i < pos ==> a[i] == CellAt(lhs, rhs, size, i)
      invariant writes' == Iota(pos)
    {
      CellAtIndex(lhs, rhs, size, column, row);
      var d := DotProduct(lhs, rhs, size, column, row);
      a[pos] := d;
      writes' := writes' + [pos];
      column := column + 1;
      pos := pos + 1;
    }
  }

  /** The product's value at flat position i. */
  function CellAt(lhs: seq<int>, rhs: seq<int>, size: nat, i: nat): int
    requires |lhs| == size * size && |rhs| == size * size && i < size * size
  {
    Index2Onto(size, i, size);
    Dot(lhs, rhs, size, i % size, i / size)
  }

  lemma CellAtIndex(lhs: seq<int>, rhs: seq<int>, size: nat, column: nat, row: nat)
    requires |lhs| == size * size && |rhs| == size * size && column < size && row < size
    ensures Index2(size, column, row) < size * size
    ensures CellAt(lhs, rhs, size, Index2(size, column, row)) == Dot(lhs, rhs, size, column, row)
  {
    Index2Bounds(size, column, row);
    Index2Digits(size, column, row);
  }

  /** create_matrix(size): size*size elements, element i equal to i; empty
      for size 0 (cpu_matrix.cpp:101-105). */
  method CreateMatrix(size: nat) returns (m: seq<int>)
    ensures |m| == size * size
    ensures forall i :: 0 <= i < |m| ==> m[i] == i
  {
    var a := new int[size * size](_ => 0);
    var i := 0;
    while i < a.Length
      invariant i <= a.Length
      invariant forall j :: 0 <= j < i ==> a[j] == j
    {
      a[i] := i;
      i := i + 1;
    }
    m := a[..];
  }
}
