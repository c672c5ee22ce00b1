/**
 * The unit tests of src/matrix.rs as verified scenarios, plus scenarios that
 * pin down the behaviour at and beyond the dimensions and of `remove`.
 */
module MatrixTests {
  import opened Options
  import opened Error
  import opened Matrices

  /** `test_contstructor`: an 8x10 matrix keeps its dimensions; 10 outer vectors of 8 cells. */
  method ConstructorScenario() returns (m: Matrix<nat>)
    ensures m.xDim == 8 && m.yDim == 10
    ensures |m.content| == 10 && |m.content[0]| == 8
  {
    m := new Matrix.New(8, 10);
  }

  /**
   * `test_insert`: on an 8x10 matrix, every `add(x, y, Some(x + y))` with
   * `x < 8` and `y < 3` succeeds and reads back; every other cell stays `None`.
   */
  method InsertScenario() returns (m: Matrix<nat>)
    ensures m.Valid() && m.xDim == 8 && m.yDim == 10
    ensures forall x: nat, y: nat :: x < 8 && y < 3 ==> m.Get(x, y) == Ok(Some(x + y))
    ensures forall i, j :: 0 <= i < 10 && 0 <= j < 8 && !(i < 8 && j < 3) ==> m.content[i][j] == None
  {
    m := new Matrix.New(8, 10);
    var x := 0;
    while x < m.xDim
      invariant 0 <= x <= 8
      invariant m.Valid() && m.xDim == 8 && m.yDim == 10
      invariant forall i, j :: 0 <= i < 10 && 0 <= j < 8 ==>
        m.content[i][j] == if i < x && j < 3 then Some(i + j) else None
    {
      var y := 0;
      while y < 3
        invariant 0 <= y <= 3
        invariant m.Valid() && m.xDim == 8 && m.yDim == 10
        invariant forall i, j :: 0 <= i < 10 && 0 <= j < 8 ==>
          m.content[i][j] == if j < 3 && (i < x || (i == x && j < y)) then Some(i + j) else None
      {
        var r := m.Add(x, y, Some(x + y));
        assert r.Ok?;
        y := y + 1;
      }
      x := x + 1;
    }
  }

  /** `test_remove`: after `add(0, 0, Some(10))` and `remove(0, 0)` the cell reads `None`. */
  method RemoveScenario() returns (g: Outcome<Option<nat>>)
    ensures g == Ok(None)
  {
    var m := new Matrix.New(8, 10);
    var r := m.Add(0, 0, Some(10));
    assert r.Ok?;
    r := m.Remove(0, 0);
    assert r.Ok?;
    g := m.Get(0, 0);
  }

  /**
   * `test_out_of_bounds`: `add(100, 100, ..)` on a 1x1 matrix is the error
   * `Exceed(100, 100)`, whose `Debug` form the test's `unwrap` panic matches.
   * The display text is a further fact about that error; the test does not
   * look at it.
   */
  method OutOfBoundsScenario() returns (r: Outcome<()>, text: string)
    ensures r == Err(Exceed(100, 100))
    ensures text == "out of bounds, got index `(100, 100)`"
  {
    var m := new Matrix.New(1, 1);
    r := m.Add(100, 100, Some(0));
    text := Message(r.error);
    MessageOfExceed100();
  }

  /**
   * `test_debug`: on a 3x3 matrix with `(0, 0)`, `(1, 0)`, `(2, 0)` set to
   * `Some(1)`, column 0 is all `Some(1)` and row 0 is `[Some(1), None, None]`.
   */
  method DebugScenario() returns (c: Outcome<seq<Option<nat>>>, r: Outcome<seq<Option<nat>>>)
    ensures c == Ok([Some(1), Some(1), Some(1)])
    ensures r == Ok([Some(1), None, None])
  {
    var m := new Matrix.New(3, 3);
    var y := 0;
    while y < m.yDim
      invariant 0 <= y <= 3
      invariant m.Valid() && m.xDim == 3 && m.yDim == 3
      invariant forall i, j :: 0 <= i < 3 && 0 <= j < 3 ==>
        m.content[i][j] == if i < y && j == 0 then Some(1) else None
    {
      var a := m.Add(y, 0, Some(1));
      assert a.Ok?;
      y := y + 1;
    }
    m.ColOnValid(0);
    m.RowOnValid(0);
    c := m.Col(0);
    r := m.Row(0);
    assert c.value == [m.content[0][0], m.content[1][0], m.content[2][0]];
    assert r.value == [m.content[0][0], m.content[0][1], m.content[0][2]];
  }

  /**
   * An index equal to the dimension passes the check: on a 1x1 matrix,
   * `add(1, 0, ..)` is not rejected but panics on the missing entry, while
   * `add(2, 0, ..)` is rejected and leaves the cell `None`. Each probe uses
   * its own matrix, since a panic ends the program that made the call.
   */
  method BoundaryScenario() returns (atDim: Outcome<()>, pastDim: Outcome<()>, cell: Outcome<Option<nat>>)
    ensures atDim == Panic
    ensures pastDim == Err(Exceed(2, 0))
    ensures cell == Ok(None)
  {
    var m1 := new Matrix.New(1, 1);
    atDim := m1.Add(1, 0, Some(7));
    var m2 := new Matrix.New(1, 1);
    pastDim := m2.Add(2, 0, Some(7));
    cell := m2.Get(0, 0);
  }

  /**
   * Transposed addressing on the 8x10 matrix: cell `content[9][0]` exists
   * but `get(9, 0)` is rejected, while `get(0, 9)` passes the check and
   * panics because the outer vector 0 holds only 8 cells.
   */
  method AxisScenario() returns (existing: Outcome<Option<nat>>, missing: Outcome<Option<nat>>)
    ensures existing == Err(Exceed(9, 0))
    ensures missing == Panic
  {
    var m := new Matrix.New(8, 10);
    assert |m.content[9]| == 8;
    existing := m.Get(9, 0);
    missing := m.Get(0, 9);
  }

  /**
   * `remove` writes `None` even on a matrix built by `default`: the cell
   * read `Some(5)` before and reads `None` after.
   */
  method DefaultRemoveScenario() returns (before: Outcome<Option<nat>>, after: Outcome<Option<nat>>)
    ensures before == Ok(Some(5))
    ensures after == Ok(None)
  {
    var m := new Matrix.Default(2, 2, 5);
    before := m.Get(1, 0);
    var r := m.Remove(1, 0);
    after := m.Get(1, 0);
  }
}
