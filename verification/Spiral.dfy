/**
 The spiral matrix: four shrinking borders fill an N by N matrix with 1 .. N*N.

 `Value` is the closed form of each cell and `CellOf` its inverse; both are given without
 the loops.  `Fill` is the program's loop nest, proved to write exactly the cells
 CellOf(1), CellOf(2), .., CellOf(N*N), in this order.
 */
module Spiral {

  datatype Cell = Cell(row: int, col: int)

  predicate InMatrix(n: nat, p: Cell) {
    0 <= p.row < n && 0 <= p.col < n
  }

  function Min(a: int, b: int): int {
    if a < b then a else b
  }

  /** The distance of a cell from the nearest border. */
  function Layer(n: nat, p: Cell): int {
    Min(Min(p.row, p.col), Min(n - 1 - p.row, n - 1 - p.col))
  }

  /** How many numbers the layers outside layer k take. */
  function Before(n: nat, k: nat): int {
    4 * k * (n - k)
  }

  lemma BeforeNext(n: nat, k: nat)
    ensures Before(n, k + 1) == Before(n, k) + 4 * (n - 1 - 2 * k)
    ensures Before(n, 0) == 0
    ensures n * n - Before(n, k) == (n - 2 * k) * (n - 2 * k)
  {
    assert (n - 2 * k) * (n - 2 * k) == n * n - 4 * k * (n - k);
    assert 4 * (k + 1) * (n - (k + 1)) == 4 * k * (n - k) + 4 * (n - 1 - 2 * k);
  }

  /** The number the program prints at a cell. */
  function Value(n: nat, p: Cell): int {
    var k := Layer(n, p);
    if k < 0 then 0 else
    var side, last := n - 1 - 2 * k, n - 1 - k;
    Before(n, k) + 1 +
      if p.row == k then p.col - k
      else if p.col == last then side + (p.row - k)
      else if p.row == last then 2 * side + (last - p.col)
      else 3 * side + (last - p.row)
  }

  /** The cell that is `off` places into layer k. */
  function CellInLayer(n: nat, k: nat, off: nat): Cell {
    var side, last := n - 1 - 2 * k, n - 1 - k;
    if off <= side then Cell(k, k + off)
    else if off <= 2 * side then Cell(k + off - side, last)
    else if off <= 3 * side then Cell(last, last - (off - 2 * side))
    else Cell(last - (off - 3 * side), k)
  }

  /** How many cells layer k has. */
  function LayerSize(n: nat, k: nat): int {
    if n - 1 == 2 * k then 1 else 4 * (n - 1 - 2 * k)
  }

  /** Finds the layer of number v, starting the search at layer k. */
  function CellFrom(n: nat, k: nat, v: int): Cell
    requires Before(n, k) < v <= n * n && 2 * k < n
    decreases n - 2 * k
  {
    BeforeNext(n, k);
    BeforeNext(n, k + 1);
    var off := v - Before(n, k) - 1;
    if off < LayerSize(n, k) then CellInLayer(n, k, off)
    else InnerLayerExists(n, k, v); CellFrom(n, k + 1, v)
  }

  lemma InnerLayerExists(n: nat, k: nat, v: int)
    requires Before(n, k) + LayerSize(n, k) < v <= n * n && 2 * k < n
    ensures 2 * (k + 1) < n && Before(n, k + 1) < v
  {
    BeforeNext(n, k);
    BeforeNext(n, k + 1);
    if n <= 2 * (k + 1) {
      assert false;
    }
  }

  /** The cell that receives number v. */
  function CellOf(n: nat, v: int): Cell
    requires 1 <= v <= n * n
  {
    BeforeNext(n, 0);
    CellFrom(n, 0, v)
  }

  // ----- Value and CellOf are inverse to each other -----

  lemma CellInLayerIsRight(n: nat, k: nat, off: nat)
    requires 2 * k < n && off < LayerSize(n, k)
    ensures var p := CellInLayer(n, k, off);
      InMatrix(n, p) && Layer(n, p) == k && Value(n, p) == Before(n, k) + off + 1
  {
  }

  lemma ValueIsInLayer(n: nat, p: Cell)
    requires InMatrix(n, p)
    ensures var k, off := Layer(n, p), Value(n, p) - Before(n, Layer(n, p)) - 1;
      2 * k < n && 0 <= off < LayerSize(n, k) && CellInLayer(n, k, off) == p
  {
  }

  lemma {:induction false} ValueOfCellFrom(n: nat, k: nat, v: int)
    requires Before(n, k) < v <= n * n && 2 * k < n
    ensures InMatrix(n, CellFrom(n, k, v)) && Value(n, CellFrom(n, k, v)) == v
    decreases n - 2 * k
  {
    var off := v - Before(n, k) - 1;
    if off < LayerSize(n, k) {
      CellInLayerIsRight(n, k, off);
    } else {
      InnerLayerExists(n, k, v);
      ValueOfCellFrom(n, k + 1, v);
    }
  }

  lemma {:induction false} BeforeGrows(n: nat, j: nat, k: nat)
    requires j <= k && 2 * k < n
    ensures Before(n, j) <= Before(n, k)
    ensures j < k ==> Before(n, j) + LayerSize(n, j) <= Before(n, k)
    decreases k - j
  {
    if j < k {
      BeforeNext(n, j);
      BeforeGrows(n, j + 1, k);
    }
  }

  /** Layer k starts in its upper left corner, with the number after 4k(n - k), and the numbers
      of its cells are the next ones: as many as it has cells. */
  lemma LayerIsAnInterval(n: nat, p: Cell, k: nat)
    requires InMatrix(n, p) && 2 * k < n
    ensures Layer(n, Cell(k, k)) == k && Value(n, Cell(k, k)) == 4 * k * (n - k) + 1
    ensures Layer(n, p) == k <==> 4 * k * (n - k) < Value(n, p) <= 4 * k * (n - k) + LayerSize(n, k)
    ensures 4 * k * (n - k) + LayerSize(n, k) == if n - 1 == 2 * k then n * n else 4 * (k + 1) * (n - (k + 1))
  {
    LayerStarts(n, k);
    NextLayerStarts(n, k);
    hide Layer, Value, LayerSize;
    var j := Layer(n, p);
    ValueIsInLayer(n, p);
    assert Before(n, k) == 4 * k * (n - k);
    hide Before;
    if j < k {
      BeforeGrows(n, j, k);
    } else if j > k {
      BeforeGrows(n, k, j);
    }
  }

  lemma LayerStarts(n: nat, k: nat)
    requires 2 * k < n
    ensures Layer(n, Cell(k, k)) == k && Value(n, Cell(k, k)) == 4 * k * (n - k) + 1
  {
  }

  lemma NextLayerStarts(n: nat, k: nat)
    requires 2 * k < n
    ensures 4 * k * (n - k) + LayerSize(n, k) == if n - 1 == 2 * k then n * n else 4 * (k + 1) * (n - (k + 1))
  {
    BeforeNext(n, k);
    if n - 1 == 2 * k {
      assert n * n == 4 * k * (n - k) + (n - 2 * k) * (n - 2 * k);
      assert (n - 2 * k) * (n - 2 * k) == 1;
    }
  }

  lemma {:induction false} CellFromOfValue(n: nat, k: nat, p: Cell)
    requires InMatrix(n, p) && k <= Layer(n, p)
    ensures Before(n, k) < Value(n, p) <= n * n && 2 * k < n
    ensures CellFrom(n, k, Value(n, p)) == p
    decreases Layer(n, p) - k
  {
    ValueIsInLayer(n, p);
    BeforeGrows(n, k, Layer(n, p));
    LayerEnds(n, Layer(n, p));
    if k < Layer(n, p) {
      CellFromOfValue(n, k + 1, p);
    }
  }

  lemma LayerEnds(n: nat, k: nat)
    requires 2 * k < n
    ensures Before(n, k) + LayerSize(n, k) <= n * n
  {
    BeforeNext(n, k);
    var d := n - 2 * k;
    if d > 1 {
      assert d * d - 4 * (d - 1) == (d - 2) * (d - 2);
    }
  }

  /** The filled matrix is a bijection between the cells and 1 .. n*n. */
  lemma Bijection(n: nat)
    ensures forall v :: 1 <= v <= n * n ==> InMatrix(n, CellOf(n, v)) && Value(n, CellOf(n, v)) == v
    ensures forall p: Cell :: InMatrix(n, p) ==> 1 <= Value(n, p) <= n * n && CellOf(n, Value(n, p)) == p
  {
    forall v | 1 <= v <= n * n
      ensures InMatrix(n, CellOf(n, v)) && Value(n, CellOf(n, v)) == v
    {
      BeforeNext(n, 0);
      ValueOfCellFrom(n, 0, v);
    }
    forall p: Cell | InMatrix(n, p)
      ensures 1 <= Value(n, p) <= n * n && CellOf(n, Value(n, p)) == p
    {
      CellFromOfValue(n, 0, p);
    }
  }

  predicate Adjacent(p: Cell, q: Cell) {
    (p.row == q.row && (p.col == q.col + 1 || q.col == p.col + 1)) ||
    (p.col == q.col && (p.row == q.row + 1 || q.row == p.row + 1))
  }

  lemma {:induction false} AdjacentFrom(n: nat, k: nat, v: int)
    requires Before(n, k) < v < n * n && 2 * k < n
    ensures Adjacent(CellFrom(n, k, v), CellFrom(n, k, v + 1))
    decreases n - 2 * k
  {
    var off := v - Before(n, k) - 1;
    if off >= LayerSize(n, k) {
      InnerLayerExists(n, k, v);
      AdjacentFrom(n, k + 1, v);
    } else if off + 1 == LayerSize(n, k) {
      InnerLayerExists(n, k, v + 1);
      BeforeNext(n, k);
    }
  }

  /** Consecutive numbers stand in neighbouring cells: the spiral is one unbroken path. */
  lemma ConsecutiveNumbersAreNeighbours(n: nat, v: int)
    requires 1 <= v < n * n
    ensures Adjacent(CellOf(n, v), CellOf(n, v + 1))
  {
    BeforeNext(n, 0);
    AdjacentFrom(n, 0, v);
  }

  // ----- the program -----

  /** The cells written so far are those of 1 .. num-1, in this order, each with its number. */
  ghost predicate Filled(n: nat, matrix: array2<int>, num: int, writes: seq<Cell>)
    reads matrix
  {
    && matrix.Length0 == matrix.Length1 == n
    && 1 <= num <= n * n + 1
    && |writes| == num - 1
    && (forall j :: 0 <= j < |writes| ==> writes[j] == CellOf(n, j + 1))
    && forall p: Cell :: InMatrix(n, p) && Value(n, p) < num ==> matrix[p.row, p.col] == Value(n, p)
  }

  /** One assignment `matrix[r][c] = num++`. */
  method Write(n: nat, matrix: array2<int>, num: int, p: Cell, ghost writes: seq<Cell>)
    requires Filled(n, matrix, num, writes)
    requires InMatrix(n, p) && Value(n, p) == num
    modifies matrix
    ensures Filled(n, matrix, num + 1, writes + [p])
  {
    Bijection(n);
    matrix[p.row, p.col] := num;
  }

  /** First inner loop: the top border, left to right. */
  method TopRow(n: nat, matrix: array2<int>, ghost k: nat,
                top: int, left: int, right: int, num: int, ghost writes: seq<Cell>)
    returns (num': int, ghost writes': seq<Cell>)
    requires 2 * k < n && top == left == k && right == n - 1 - k
    requires Filled(n, matrix, num, writes) && num == Before(n, k) + 1
    modifies matrix
    ensures Filled(n, matrix, num', writes') && num' == num + (right - left) + 1
  {
    num', writes' := num, writes;
    var i := left;
    while i <= right
      invariant Filled(n, matrix, num', writes')
      invariant left <= i <= right + 1 && num' == num + (i - left)
    {
      CellInLayerIsRight(n, k, i - left);
      Write(n, matrix, num', Cell(top, i), writes');
      num', i, writes' := num' + 1, i + 1, writes' + [Cell(top, i)];
    }
  }

  /** Second inner loop: the right border, downwards. */
  method RightColumn(n: nat, matrix: array2<int>, ghost k: nat,
                     top: int, bottom: int, right: int, num: int, ghost writes: seq<Cell>)
    returns (num': int, ghost writes': seq<Cell>)
    requires 2 * k < n && top == k + 1 && bottom == right == n - 1 - k
    requires Filled(n, matrix, num, writes) && num == Before(n, k) + 1 + (n - 1 - 2 * k) + 1
    modifies matrix
    ensures Filled(n, matrix, num', writes') && num' == num + (bottom - top) + 1
  {
    num', writes' := num, writes;
    var i := top;
    while i <= bottom
      invariant Filled(n, matrix, num', writes')
      invariant top <= i <= bottom + 1 && num' == num + (i - top)
    {
      CellInLayerIsRight(n, k, n - 1 - 2 * k + i - k);
      Write(n, matrix, num', Cell(i, right), writes');
      num', i, writes' := num' + 1, i + 1, writes' + [Cell(i, right)];
    }
  }

  /** Third inner loop: the bottom border, right to left. */
  method BottomRow(n: nat, matrix: array2<int>, ghost k: nat,
                   bottom: int, left: int, right: int, num: int, ghost writes: seq<Cell>)
    returns (num': int, ghost writes': seq<Cell>)
    requires 2 * k < n && left == k && bottom == n - 1 - k && right == bottom - 1
    requires Filled(n, matrix, num, writes) && num == Before(n, k) + 1 + 2 * (n - 1 - 2 * k) + 1
    modifies matrix
    ensures Filled(n, matrix, num', writes') && num' == num + (right - left) + 1
  {
    num', writes' := num, writes;
    var i := right;
    while i >= left
      invariant Filled(n, matrix, num', writes')
      invariant left - 1 <= i <= right && num' == num + (right - i)
    {
      CellInLayerIsRight(n, k, 2 * (n - 1 - 2 * k) + (bottom - i));
      Write(n, matrix, num', Cell(bottom, i), writes');
      num', i, writes' := num' + 1, i - 1, writes' + [Cell(bottom, i)];
    }
  }

  /** Fourth inner loop: the left border, upwards.  In the middle of an odd matrix it does nothing. */
  method LeftColumn(n: nat, matrix: array2<int>, ghost k: nat,
                    top: int, bottom: int, left: int, num: int, ghost writes: seq<Cell>)
    returns (num': int, ghost writes': seq<Cell>)
    requires 2 * k < n && left == k && top == k + 1 && bottom == n - 2 - k
    requires Filled(n, matrix, num, writes)
    requires bottom >= top ==> num == Before(n, k) + 1 + 3 * (n - 1 - 2 * k) + 1
    modifies matrix
    ensures Filled(n, matrix, num', writes')
    ensures num' == if bottom >= top then num + (bottom - top) + 1 else num
  {
    num', writes' := num, writes;
    var i := bottom;
    while i >= top
      invariant Filled(n, matrix, num', writes')
      invariant num' == num + (bottom - i) && i <= bottom && (if bottom >= top then top - 1 <= i else i == bottom)
    {
      CellInLayerIsRight(n, k, 3 * (n - 1 - 2 * k) + (n - 1 - k - i));
      Write(n, matrix, num', Cell(i, left), writes');
      num', i, writes' := num' + 1, i - 1, writes' + [Cell(i, left)];
    }
  }

  /** The loop nest of the program.  The writes are exactly CellOf(1) .. CellOf(n*n), so by
      `Bijection` each cell is written once; and no number above n*n + 1 is ever formed. */
  method Fill(n: nat) returns (matrix: array2<int>, ghost writes: seq<Cell>)
    ensures matrix.Length0 == matrix.Length1 == n
    ensures forall p: Cell :: InMatrix(n, p) ==> matrix[p.row, p.col] == Value(n, p)
    ensures |writes| == n * n && forall j :: 0 <= j < n * n ==> writes[j] == CellOf(n, j + 1)
    ensures forall i, j :: 0 <= i < j < n * n ==> writes[i] != writes[j]
    ensures forall p: Cell :: InMatrix(n, p) ==> p in writes
  {
    matrix := new int[n, n];
    writes := [];
    var num := 1;
    var top, bottom, left, right := 0, n - 1, 0, n - 1;
    Bijection(n);
    BeforeNext(n, 0);
    while num <= n * n
      invariant fresh(matrix) && Filled(n, matrix, num, writes)
      invariant num <= n * n ==>
        && 0 <= top == left && bottom == right == n - 1 - top && 2 * top < n
        && num == Before(n, top) + 1
      decreases n * n + 1 - num
    {
      ghost var k := top;
      num, writes := TopRow(n, matrix, k, top, left, right, num, writes);
      top := top + 1;
      num, writes := RightColumn(n, matrix, k, top, bottom, right, num, writes);
      right := right - 1;
      num, writes := BottomRow(n, matrix, k, bottom, left, right, num, writes);
      bottom := bottom - 1;
      num, writes := LeftColumn(n, matrix, k, top, bottom, left, num, writes);
      left := left + 1;
      LapEnds(n, k, num);
    }
    assert forall p: Cell :: InMatrix(n, p) ==> writes[Value(n, p) - 1] == p;
  }

  /** After a lap either the matrix is full or the next lap starts at the next layer. */
  lemma LapEnds(n: nat, k: nat, num: int)
    requires 2 * k < n && num == Before(n, k) + LayerSize(n, k) + 1
    ensures num <= n * n ==> 2 * (k + 1) < n && num == Before(n, k + 1) + 1
  {
    BeforeNext(n, k);
    if num <= n * n {
      InnerLayerExists(n, k, num);
    }
  }
}
