/**
 * The generic 2-D container of src/matrix.rs, modelled as written.
 *
 * The grid is `y_dim` outer vectors of `x_dim` cells each, but every access
 * goes to `content[x][y]`, and the bounds check rejects only `x > x_dim` or
 * `y > y_dim`. An access that passes the check can therefore still hit a
 * missing entry; the source then panics through `unwrap`, which the model
 * returns as the outcome `Panic`.
 */
module Matrices {
  import opened Options
  import opened Error

  /** A call's outcome: Rust's `Result<R, BoundError>`, or the panic an `unwrap` raises. */
  datatype Outcome<R> = Ok(value: R) | Err(error: BoundError) | Panic

  type Grid<T> = seq<seq<Option<T>>>

  /** `y_dim` outer vectors, each `x_dim` cells long. */
  predicate Rectangular<T>(g: Grid<T>, xDim: nat, yDim: nat) {
    |g| == yDim && forall i :: 0 <= i < |g| ==> |g[i]| == xDim
  }

  /** `vec![vec![cell; x_dim]; y_dim]`: a rectangular grid with every cell equal to `cell`. */
  function Filled<T>(xDim: nat, yDim: nat, cell: Option<T>): (g: Grid<T>)
    ensures Rectangular(g, xDim, yDim)
    ensures forall i, j :: 0 <= i < yDim && 0 <= j < xDim ==> g[i][j] == cell
  {
    seq(yDim, _ => seq(xDim, _ => cell))
  }

  /**
   * `.map(|pos| ... .unwrap()).collect()`: the values of all entries in order,
   * or a panic when some entry is not `Ok`.
   */
  function UnwrapAll<R>(s: seq<Outcome<R>>): (r: Outcome<seq<R>>)
    ensures r.Ok? <==> forall i :: 0 <= i < |s| ==> s[i].Ok?
    ensures !r.Ok? ==> r.Panic?
    ensures r.Ok? ==> |r.value| == |s| && forall i :: 0 <= i < |s| ==> r.value[i] == s[i].value
  {
    if s == [] then Ok([])
    else if !s[0].Ok? then Panic
    else match UnwrapAll(s[1..])
      case Ok(rest) => Ok([s[0].value] + rest)
      case _ => Panic
  }

  class Matrix<T> {
    var content: Grid<T>
    var xDim: nat
    var yDim: nat

    /** The shape every constructor establishes and `Add` keeps. */
    ghost predicate Valid()
      reads this
    {
      Rectangular(content, xDim, yDim)
    }

    /** `Matrix::new`: every cell `None`. */
    constructor New(xDim: nat, yDim: nat)
      ensures this.xDim == xDim && this.yDim == yDim
      ensures content == Filled(xDim, yDim, None)
      ensures Valid()
    {
      content := Filled(xDim, yDim, None);
      this.xDim := xDim;
      this.yDim := yDim;
    }

    /** `Matrix::default`, with `T::default()` passed in: every cell `Some(defaultValue)`. */
    constructor Default(xDim: nat, yDim: nat, defaultValue: T)
      ensures this.xDim == xDim && this.yDim == yDim
      ensures content == Filled(xDim, yDim, Some(defaultValue))
      ensures Valid()
    {
      content := Filled(xDim, yDim, Some(defaultValue));
      this.xDim := xDim;
      this.yDim := yDim;
    }

    /**
     * `get(x, y)`: rejected with `Exceed(x, y)` only when `x > x_dim` or
     * `y > y_dim`; otherwise the cell `content[x][y]` whenever that entry
     * exists, in any state, and a panic when it does not. On a valid matrix the read succeeds exactly when
     * the check passes and `x` is below `y_dim` and `y` below `x_dim`.
     */
    function Get(x: nat, y: nat): (r: Outcome<Option<T>>)
      reads this
      ensures r.Err? <==> x > xDim || y > yDim
      ensures r.Err? ==> r.error == Exceed(x, y)
      ensures r.Ok? ==> x < |content| && y < |content[x]| && r.value == content[x][y]
      ensures !r.Err? ==> (r.Ok? <==> x < |content| && y < |content[x]|)
      ensures Valid() ==> (r.Ok? <==> x <= xDim && y <= yDim && x < yDim && y < xDim)
    {
      if x > xDim || y > yDim then Err(Exceed(x, y))
      else if x < |content| && y < |content[x]| then Ok(content[x][y])
      else Panic
    }

    /**
     * `col(col)`: rejected with `Exceed(0, col)` when `col > y_dim`; otherwise
     * `get(pos, col)` for every `pos` below `y_dim`, panicking if one of them
     * is not `Ok`.
     */
    function Col(col: nat): (r: Outcome<seq<Option<T>>>)
      reads this
      ensures r.Err? <==> col > yDim
      ensures r.Err? ==> r.error == Exceed(0, col)
      ensures !r.Err? && (forall pos: nat :: pos < yDim ==> Get(pos, col).Ok?) ==> r.Ok?
      ensures r.Ok? ==> |r.value| == yDim
      ensures r.Ok? ==> forall pos: nat :: pos < yDim ==> Get(pos, col) == Ok(r.value[pos])
    {
      if col > yDim then Err(Exceed(0, col))
      else UnwrapAll(seq(yDim, pos requires 0 <= pos reads this => Get(pos, col)))
    }

    /**
     * `row(row)`: rejected with `Exceed(x_dim, y_dim)`, the dimensions and
     * not the index, when `row > x_dim`; otherwise `get(row, pos)` for every
     * `pos` below `x_dim`, panicking if one of them is not `Ok`.
     */
    function Row(row: nat): (r: Outcome<seq<Option<T>>>)
      reads this
      ensures r.Err? <==> row > xDim
      ensures r.Err? ==> r.error == Exceed(xDim, yDim)
      ensures !r.Err? && (forall pos: nat :: pos < xDim ==> Get(row, pos).Ok?) ==> r.Ok?
      ensures r.Ok? ==> |r.value| == xDim
      ensures r.Ok? ==> forall pos: nat :: pos < xDim ==> Get(row, pos) == Ok(r.value[pos])
    {
      if row > xDim then Err(Exceed(xDim, yDim))
      else UnwrapAll(seq(xDim, pos requires 0 <= pos reads this => Get(row, pos)))
    }

    /** On a valid matrix, exactly when a column that passes the check is returned. */
    lemma ColOnValid(col: nat)
      requires Valid() && col <= yDim
      ensures Col(col).Ok? <==> yDim == 0 || (col < xDim && yDim <= xDim + 1)
    {
      if yDim > 0 && Col(col).Ok? {
        assert Get(0, col).Ok?;
        assert Get(yDim - 1, col).Ok?;
      }
    }

    /** On a valid matrix, exactly when a row that passes the check is returned. */
    lemma RowOnValid(row: nat)
      requires Valid() && row <= xDim
      ensures Row(row).Ok? <==> xDim == 0 || (row < yDim && xDim <= yDim + 1)
    {
      if xDim > 0 && Row(row).Ok? {
        assert Get(row, 0).Ok?;
        assert Get(row, xDim - 1).Ok?;
      }
    }

    /** Rows and columns cross-index the same cells: entry `j` of row `i` is entry `i` of column `j`. */
    lemma RowColAgree(i: nat, j: nat)
      requires Row(i).Ok? && Col(j).Ok? && i < yDim && j < xDim
      ensures Row(i).value[j] == Col(j).value[i] == content[i][j]
    {
    }

    /**
     * `add(x, y, value)`: rejected with `Exceed(x, y)`, leaving the grid alone,
     * when `x > x_dim` or `y > y_dim`; panics, leaving the grid alone, when
     * the entry `content[x][y]` does not exist; otherwise stores `value` in
     * exactly that cell. The dimensions never change.
     */
    method Add(x: nat, y: nat, value: Option<T>) returns (r: Outcome<()>)
      modifies this`content
      ensures xDim == old(xDim) && yDim == old(yDim)
      ensures r.Err? <==> x > xDim || y > yDim
      ensures r.Err? ==> r.error == Exceed(x, y)
      ensures r.Ok? <==> old(Get(x, y)).Ok?
      ensures r.Ok? ==> content == old(content)[x := old(content)[x][y := value]]
      ensures !r.Ok? ==> content == old(content)
      ensures r.Ok? ==> Get(x, y) == Ok(value)
      ensures forall i: nat, j: nat :: i != x || j != y ==> Get(i, j) == old(Get(i, j))
      ensures old(Valid()) ==> Valid()
    {
      if x > xDim || y > yDim {
        return Err(Exceed(x, y));
      }
      if x < |content| && y < |content[x]| {
        content := content[x := content[x][y := value]];
        r := Ok(());
      } else {
        r := Panic;
      }
    }

    /** `remove(x, y)`: exactly `add(x, y, None)`, errors and panics included. */
    method Remove(x: nat, y: nat) returns (r: Outcome<()>)
      modifies this`content
      ensures xDim == old(xDim) && yDim == old(yDim)
      ensures r.Err? <==> x > xDim || y > yDim
      ensures r.Err? ==> r.error == Exceed(x, y)
      ensures r.Ok? <==> old(Get(x, y)).Ok?
      ensures r.Ok? ==> content == old(content)[x := old(content)[x][y := None]]
      ensures !r.Ok? ==> content == old(content)
      ensures r.Ok? ==> Get(x, y) == Ok(None)
      ensures forall i: nat, j: nat :: i != x || j != y ==> Get(i, j) == old(Get(i, j))
      ensures old(Valid()) ==> Valid()
    {
      r := Add(x, y, None);
    }
  }
}
