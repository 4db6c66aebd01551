/** The matrix and tensor codec: `fromMatrix`, `toMatrix`, `fromTensor` and
    `toTensor` convert between EJML's dense matrices (and stacks of them) and
    nested lists of doubles. */
module Matrices {
  import opened Results

  /** One `Double` cell. The codec only copies cells, so no floating-point
      behaviour enters the model. */
  type Scalar = real

  /** EJML's dense row-major matrix: cell (i, j) is stored at
      data[i * numCols + j]. */
  datatype SimpleMatrix = SimpleMatrix(numRows: nat, numCols: nat, data: seq<Scalar>)

  /** A SimpleMatrix whose storage holds exactly numRows * numCols cells. A
      matrix may have no rows or no columns. */
  type Matrix = m: SimpleMatrix | |m.data| == m.numRows * m.numCols witness SimpleMatrix(0, 0, [])

  /** The portable form of a matrix, `List<List<Double>>`, meant to hold one
      inner list per row. Nothing stops a list from being ragged. */
  type MatrixLists = seq<seq<Scalar>>

  /** A SimpleTensor: an ordered stack of matrix slices. */
  datatype SimpleTensor = SimpleTensor(slices: seq<Matrix>)

  /** The portable form of a tensor, `List<List<List<Double>>>`: one entry per slice. */
  type TensorLists = seq<MatrixLists>

  const ZeroRows := "Input array with 0 rows"
  const ZeroColumns := "Input array with 0 columns"
  const UnevenColumns := "Input array with uneven columns"

  // ---------------------------------------------------------------------------
  // Row-major indexing

  lemma MulMonotone(a: nat, b: nat, c: nat)
    requires a <= b
    ensures a * c <= b * c
  {
    assert b * c == a * c + (b - a) * c;
  }

  lemma CellIndex(r: nat, c: nat, i: nat, j: nat)
    requires i < r && j < c
    ensures i * c + j < r * c
  {
    MulMonotone(i + 1, r, c);
  }

  /** SimpleMatrix.get(i, j). */
  function Get(m: Matrix, i: nat, j: nat): Scalar
    requires i < m.numRows && j < m.numCols
  {
    CellIndex(m.numRows, m.numCols, i, j);
    m.data[i * m.numCols + j]
  }

  /** The matrix that is left when the first row of m is dropped. */
  function DropRow(m: Matrix): (d: Matrix)
    requires m.numRows > 0
    ensures d.numRows == m.numRows - 1 && d.numCols == m.numCols
  {
    MulMonotone(1, m.numRows, m.numCols);
    SimpleMatrix(m.numRows - 1, m.numCols, m.data[m.numCols..])
  }

  // ---------------------------------------------------------------------------
  // Specification of the matrix codec

  /** The portable form of m: its rows, top to bottom, each in column order. */
  function MatrixToLists(m: Matrix): (p: MatrixLists)
    ensures |p| == m.numRows
    ensures forall i :: 0 <= i < |p| ==> |p[i]| == m.numCols
    decreases m.numRows
  {
    if m.numRows == 0 then []
    else
      MulMonotone(1, m.numRows, m.numCols);
      [m.data[..m.numCols]] + MatrixToLists(DropRow(m))
  }

  /** The shape toMatrix accepts: at least one row, a first row that is not
      empty, and every row as long as the first. */
  predicate Rectangular(p: MatrixLists) {
    |p| >= 1 && |p[0]| >= 1 && forall i :: 0 <= i < |p| ==> |p[i]| == |p[0]|
  }

  /** The rows of p laid end to end. */
  function Flatten(p: MatrixLists): seq<Scalar> {
    if p == [] then [] else p[0] + Flatten(p[1..])
  }

  /** What toMatrix returns or throws for p. */
  function ListsToMatrix(p: MatrixLists): (r: Result<Matrix>)
    ensures r.Ok? <==> Rectangular(p)
    ensures r.Ok? ==> r.value.numRows == |p| && r.value.numCols == |p[0]|
  {
    if |p| == 0 then Err(IllegalArgument(ZeroRows))
    else if |p[0]| == 0 then Err(IllegalArgument(ZeroColumns))
    else if exists i :: 1 <= i < |p| && |p[i]| != |p[0]| then Err(IllegalArgument(UnevenColumns))
    else
      FlattenLength(p, |p[0]|);
      Ok(SimpleMatrix(|p|, |p[0]|, Flatten(p)))
  }

  /** The portable form of a tensor: every slice converted, in slice order. */
  function TensorToLists(t: SimpleTensor): TensorLists {
    seq(|t.slices|, i requires 0 <= i < |t.slices| => MatrixToLists(t.slices[i]))
  }

  /** The slices toTensor builds from p, or the error of the first slice
      that toMatrix rejects. */
  function ListsToSlices(p: TensorLists): (r: Result<seq<Matrix>>)
    ensures r.Ok? <==> forall i :: 0 <= i < |p| ==> ListsToMatrix(p[i]).Ok?
    ensures r.Ok? ==> |r.value| == |p|
    ensures r.Ok? ==> forall i :: 0 <= i < |p| ==> r.value[i] == ListsToMatrix(p[i]).value
    ensures r.Err? ==> exists i :: 0 <= i < |p| && ListsToMatrix(p[i]) == Err(r.error) &&
                                   forall j :: 0 <= j < i ==> ListsToMatrix(p[j]).Ok?
  {
    if p == [] then Ok([])
    else
      var first :- ListsToMatrix(p[0]);
      var rest :- ListsToSlices(p[1..]);
      Ok([first] + rest)
  }

  /** What toTensor returns or throws for p. */
  function ListsToTensor(p: TensorLists): Result<SimpleTensor> {
    var slices :- ListsToSlices(p);
    Ok(SimpleTensor(slices))
  }

  // ---------------------------------------------------------------------------
  // Lemmas about the specification

  lemma {:induction false} FlattenLength(p: MatrixLists, c: nat)
    requires forall i :: 0 <= i < |p| ==> |p[i]| == c
    ensures |Flatten(p)| == |p| * c
  {
    if p != [] {
      FlattenLength(p[1..], c);
      assert |p| * c == (|p| - 1) * c + c;
    }
  }

  lemma {:induction false} FlattenAppend(a: MatrixLists, b: MatrixLists)
    ensures Flatten(a + b) == Flatten(a) + Flatten(b)
  {
    if a != [] {
      calc {
        Flatten(a + b);
        (a + b)[0] + Flatten((a + b)[1..]);
        { assert (a + b)[1..] == a[1..] + b; }
        a[0] + Flatten(a[1..] + b);
        { FlattenAppend(a[1..], b); }
        a[0] + (Flatten(a[1..]) + Flatten(b));
      }
    } else {
      assert a + b == b;
    }
  }

  /** Cell (i, j) of the rows of p laid end to end is p[i][j]. */
  lemma {:induction false} FlattenCell(p: MatrixLists, c: nat, i: nat, j: nat)
    requires forall k :: 0 <= k < |p| ==> |p[k]| == c
    requires i < |p| && j < c
    ensures |Flatten(p)| == |p| * c && i * c + j < |Flatten(p)|
    ensures Flatten(p)[i * c + j] == p[i][j]
  {
    FlattenLength(p, c);
    CellIndex(|p|, c, i, j);
    if i > 0 {
      FlattenCell(p[1..], c, i - 1, j);
      assert i * c + j == c + ((i - 1) * c + j);
    }
  }

  lemma RowShift(m: Matrix, i: nat, j: nat)
    requires 0 < i < m.numRows && j < m.numCols
    ensures Get(DropRow(m), i - 1, j) == Get(m, i, j)
  {
    var c := m.numCols;
    var k := (i - 1) * c + j;
    CellIndex(m.numRows - 1, c, i - 1, j);
    assert c + k == i * c + j;
    assert DropRow(m).data[k] == m.data[c + k];
  }

  /** The first portable row holds the matrix's first row. */
  lemma FirstRowCell(m: Matrix, j: nat)
    requires 0 < m.numRows && j < m.numCols
    ensures MatrixToLists(m)[0][j] == Get(m, 0, j)
  {
    MulMonotone(1, m.numRows, m.numCols);
    assert MatrixToLists(m)[0] == m.data[..m.numCols];
    assert 0 * m.numCols + j == j;
  }

  /** A later portable row is a portable row of the matrix without its first row. */
  lemma LaterRowCell(m: Matrix, i: nat, j: nat)
    requires 0 < i < m.numRows && j < m.numCols
    ensures MatrixToLists(m)[i][j] == MatrixToLists(DropRow(m))[i - 1][j]
  {
    assert MatrixToLists(m)[i] == MatrixToLists(DropRow(m))[i - 1];
  }

  /** Row i of the portable form holds the cells Get(m, i, _). */
  lemma {:induction false} MatrixToListsCell(m: Matrix, i: nat, j: nat)
    requires i < m.numRows && j < m.numCols
    ensures MatrixToLists(m)[i][j] == Get(m, i, j)
    decreases m.numRows
  {
    if i == 0 {
      FirstRowCell(m, j);
    } else {
      LaterRowCell(m, i, j);
      MatrixToListsCell(DropRow(m), i - 1, j);
      RowShift(m, i, j);
    }
  }

  lemma {:induction false} FlattenMatrixToLists(m: Matrix)
    ensures Flatten(MatrixToLists(m)) == m.data
    decreases m.numRows
  {
    if m.numRows == 0 {
      assert |m.data| == 0;
    } else {
      MulMonotone(1, m.numRows, m.numCols);
      FlattenMatrixToLists(DropRow(m));
      assert MatrixToLists(m)[1..] == MatrixToLists(DropRow(m));
      assert m.data == m.data[..m.numCols] + m.data[m.numCols..];
    }
  }

  /** Splitting the laid-out rows of an even p back into rows gives p. */
  lemma {:induction false} MatrixToListsFlatten(p: MatrixLists, c: nat)
    requires forall k :: 0 <= k < |p| ==> |p[k]| == c
    ensures |Flatten(p)| == |p| * c
    ensures MatrixToLists(SimpleMatrix(|p|, c, Flatten(p))) == p
  {
    FlattenLength(p, c);
    if p != [] {
      MatrixToListsFlatten(p[1..], c);
      var m: Matrix := SimpleMatrix(|p|, c, Flatten(p));
      assert m.data[..c] == p[0];
      assert DropRow(m) == SimpleMatrix(|p| - 1, c, Flatten(p[1..]));
      assert p == [p[0]] + p[1..];
    }
  }

  /** toMatrix accepts a row-major portable form cell for cell. */
  lemma ListsToMatrixCells(p: MatrixLists)
    requires Rectangular(p)
    ensures forall i, j :: 0 <= i < |p| && 0 <= j < |p[0]| ==> Get(ListsToMatrix(p).value, i, j) == p[i][j]
  {
    forall i, j | 0 <= i < |p| && 0 <= j < |p[0]|
      ensures Get(ListsToMatrix(p).value, i, j) == p[i][j]
    {
      FlattenCell(p, |p[0]|, i, j);
    }
  }

  /** The three portable forms toMatrix rejects, each with its own message. */
  lemma ListsToMatrixErrors(p: MatrixLists)
    ensures |p| == 0 ==> ListsToMatrix(p) == Err(IllegalArgument(ZeroRows))
    ensures |p| > 0 && |p[0]| == 0 ==> ListsToMatrix(p) == Err(IllegalArgument(ZeroColumns))
    ensures |p| > 0 && |p[0]| > 0 && !Rectangular(p) ==> ListsToMatrix(p) == Err(IllegalArgument(UnevenColumns))
  {
    if |p| > 0 && |p[0]| > 0 && !Rectangular(p) {
      var i :| 0 <= i < |p| && |p[i]| != |p[0]|;
      assert 1 <= i;
    }
  }

  /** A matrix that survives the trip through the portable form: toMatrix
      rejects the portable form of a matrix without rows or columns. */
  predicate RoundTrips(m: Matrix) {
    m.numRows >= 1 && m.numCols >= 1
  }

  /** A tensor every slice of which survives the trip. */
  predicate TensorRoundTrips(t: SimpleTensor) {
    forall i :: 0 <= i < |t.slices| ==> RoundTrips(t.slices[i])
  }

  /** Round trip native -> portable -> native: it gives back m exactly when m
      has at least one row and one column; otherwise toMatrix throws. */
  lemma MatrixRoundTrip(m: Matrix)
    ensures ListsToMatrix(MatrixToLists(m)) == Ok(m) <==> RoundTrips(m)
    ensures ListsToMatrix(MatrixToLists(m)).Err? <==> !RoundTrips(m)
  {
    var p := MatrixToLists(m);
    if m.numRows >= 1 && m.numCols >= 1 {
      FlattenMatrixToLists(m);
    }
  }

  /** Round trip portable -> native -> portable: an accepted portable form
      comes back unchanged. */
  lemma ListsRoundTrip(p: MatrixLists)
    requires ListsToMatrix(p).Ok?
    ensures MatrixToLists(ListsToMatrix(p).value) == p
  {
    MatrixToListsFlatten(p, |p[0]|);
  }

  /** The tensor round trip holds exactly when every slice round-trips, and
      otherwise toTensor throws. */
  lemma TensorRoundTrip(t: SimpleTensor)
    ensures ListsToTensor(TensorToLists(t)) == Ok(t) <==> TensorRoundTrips(t)
    ensures ListsToTensor(TensorToLists(t)).Err? <==> !TensorRoundTrips(t)
  {
    var p := TensorToLists(t);
    forall i | 0 <= i < |t.slices|
      ensures ListsToMatrix(p[i]) == Ok(t.slices[i]) <==> RoundTrips(t.slices[i])
      ensures ListsToMatrix(p[i]).Err? <==> !RoundTrips(t.slices[i])
    {
      MatrixRoundTrip(t.slices[i]);
    }
    if TensorRoundTrips(t) {
      assert ListsToSlices(p).value == t.slices;
    }
  }

  // ---------------------------------------------------------------------------
  // The codec as the source runs it

  /** fromMatrix: appends one list per row, and one cell per column to it. */
  method FromMatrix(m: Matrix) returns (out: MatrixLists)
    ensures |out| == m.numRows
    ensures forall i :: 0 <= i < |out| ==> |out[i]| == m.numCols
    ensures forall i, j :: 0 <= i < m.numRows && 0 <= j < m.numCols ==> out[i][j] == Get(m, i, j)
    ensures out == MatrixToLists(m)
  {
    out := [];
    var i := 0;
    while i < m.numRows
      invariant 0 <= i <= m.numRows && |out| == i
      invariant forall a :: 0 <= a < i ==> |out[a]| == m.numCols
      invariant forall a, b :: 0 <= a < i && 0 <= b < m.numCols ==> out[a][b] == Get(m, a, b)
    {
      out := out + [[]];
      var j := 0;
      while j < m.numCols
        invariant 0 <= j <= m.numCols && |out| == i + 1 && |out[i]| == j
        invariant forall a :: 0 <= a < i ==> |out[a]| == m.numCols
        invariant forall a, b :: 0 <= a < i && 0 <= b < m.numCols ==> out[a][b] == Get(m, a, b)
        invariant forall b :: 0 <= b < j ==> out[i][b] == Get(m, i, b)
      {
        out := out[i := out[i] + [Get(m, i, j)]];
        j := j + 1;
      }
      i := i + 1;
    }
    var spec := MatrixToLists(m);
    forall a | 0 <= a < m.numRows ensures out[a] == spec[a] {
      forall b | 0 <= b < m.numCols ensures out[a][b] == spec[a][b] {
        MatrixToListsCell(m, a, b);
      }
    }
  }

  /** The inner loop of toMatrix: out.set(i, j, row.get(j)) for every j,
      where the cells of row i start at `offset` in the row-major data; the
      cells before and after the row keep their values. */
  method SetRow(data: seq<Scalar>, offset: nat, row: seq<Scalar>) returns (filled: seq<Scalar>)
    requires offset + |row| <= |data|
    ensures |filled| == |data|
    ensures filled[..offset + |row|] == data[..offset] + row
    ensures filled[offset + |row|..] == data[offset + |row|..]
  {
    filled := data;
    var j := 0;
    while j < |row|
      invariant 0 <= j <= |row| && |filled| == |data|
      invariant filled[..offset + j] == data[..offset] + row[..j]
      invariant filled[offset + j..] == data[offset + j..]
    {
      var before := filled;
      filled := filled[offset + j := row[j]];
      assert filled[..offset + j + 1] == before[..offset + j] + [row[j]];
      assert row[..j + 1] == row[..j] + [row[j]];
      j := j + 1;
    }
    assert row[..j] == row;
  }

  /** toMatrix: checks the shape, then fills a fresh zero matrix cell by cell. */
  method ToMatrix(p: MatrixLists) returns (r: Result<Matrix>)
    ensures r == ListsToMatrix(p)
    ensures |p| == 0 ==> r == Err(IllegalArgument(ZeroRows))
    ensures |p| > 0 && |p[0]| == 0 ==> r == Err(IllegalArgument(ZeroColumns))
    ensures |p| > 0 && |p[0]| > 0 && !Rectangular(p) ==> r == Err(IllegalArgument(UnevenColumns))
    ensures r.Ok? <==> Rectangular(p)
    ensures r.Ok? ==> r.value.numRows == |p| && r.value.numCols == |p[0]|
    ensures r.Ok? ==> forall i, j :: 0 <= i < |p| && 0 <= j < |p[0]| ==> Get(r.value, i, j) == p[i][j]
  {
    ListsToMatrixErrors(p);
    if |p| == 0 {
      return Err(IllegalArgument(ZeroRows));
    }
    if |p[0]| == 0 {
      return Err(IllegalArgument(ZeroColumns));
    }
    var i := 1;
    while i < |p|
      invariant 1 <= i <= |p|
      invariant forall a :: 1 <= a < i ==> |p[a]| == |p[0]|
    {
      if |p[i]| != |p[0]| {
        return Err(IllegalArgument(UnevenColumns));
      }
      i := i + 1;
    }
    var rows, cols := |p|, |p[0]|;
    var data := seq(rows * cols, _ => 0.0);
    i := 0;
    while i < rows
      invariant 0 <= i <= rows && |data| == rows * cols
      invariant i * cols <= rows * cols
      invariant data[..i * cols] == Flatten(p[..i])
    {
      var row := p[i];
      MulMonotone(i + 1, rows, cols);
      assert (i + 1) * cols == i * cols + cols;
      data := SetRow(data, i * cols, row);
      assert p[..i + 1] == p[..i] + [row];
      FlattenAppend(p[..i], [row]);
      i := i + 1;
    }
    assert data == data[..rows * cols];
    assert p[..rows] == p;
    ListsToMatrixCells(p);
    r := Ok(SimpleMatrix(rows, cols, data));
  }

  /** fromTensor: appends the portable form of every slice, in slice order. */
  method FromTensor(t: SimpleTensor) returns (out: TensorLists)
    ensures |out| == |t.slices|
    ensures forall i :: 0 <= i < |out| ==> out[i] == MatrixToLists(t.slices[i])
    ensures out == TensorToLists(t)
  {
    out := [];
    var i := 0;
    while i < |t.slices|
      invariant 0 <= i <= |t.slices| && |out| == i
      invariant forall a :: 0 <= a < i ==> out[a] == MatrixToLists(t.slices[a])
    {
      var slice := FromMatrix(t.slices[i]);
      out := out + [slice];
      i := i + 1;
    }
  }

  /** toTensor: converts every slice into an array of slices; the first slice
      toMatrix rejects aborts it with that slice's error. */
  method ToTensor(p: TensorLists) returns (r: Result<SimpleTensor>)
    ensures r == ListsToTensor(p)
    ensures r.Ok? <==> forall i :: 0 <= i < |p| ==> ListsToMatrix(p[i]).Ok?
    ensures r.Ok? ==> |r.value.slices| == |p| &&
                      forall i :: 0 <= i < |p| ==> r.value.slices[i] == ListsToMatrix(p[i]).value
    ensures r.Err? ==> exists i :: 0 <= i < |p| && ListsToMatrix(p[i]) == Err(r.error) &&
                                   forall j :: 0 <= j < i ==> ListsToMatrix(p[j]).Ok?
  {
    var numSlices := |p|;
    var slices := new Matrix[numSlices](_ => SimpleMatrix(0, 0, []));
    var i := 0;
    while i < numSlices
      invariant 0 <= i <= numSlices
      invariant forall k :: 0 <= k < i ==> ListsToMatrix(p[k]) == Ok(slices[k])
    {
      var slice := ToMatrix(p[i]);
      if slice.Err? {
        ghost var spec := ListsToSlices(p);
        assert spec.Err?;
        ghost var first :| 0 <= first < |p| && ListsToMatrix(p[first]) == Err(spec.error) &&
                           forall j :: 0 <= j < first ==> ListsToMatrix(p[j]).Ok?;
        assert first == i;
        return Err(slice.error);
      }
      slices[i] := slice.value;
      i := i + 1;
    }
    assert slices[..] == ListsToSlices(p).value;
    r := Ok(SimpleTensor(slices[..]));
  }
}
