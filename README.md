# Matrix: a bounds-checked 2-D container, modelled in Dafny

This project models the generic container `Matrix<T>` of the `ridge` crate
(`src/matrix.rs`) and its error type `BoundError` (`src/error.rs`).

A matrix owns a grid `content` of optional cells and two dimensions,
`x_dim` and `y_dim`. The grid has `y_dim` outer vectors of `x_dim` cells
each. The model keeps the code's behaviour as written, including its quirks:

- The bounds check rejects only `x > x_dim` or `y > y_dim`, so an index
  equal to a dimension passes it.
- Reads and writes go to `content[x][y]`, which is transposed against the
  grid's shape. A call that passes the check can still find no entry there.
  The source then panics inside `unwrap`; the model returns the outcome
  `Panic` and leaves the grid unchanged.
- `row` reports `Exceed(x_dim, y_dim)`, the dimensions, not the index.
- `col` reports `Exceed(0, col)`.
- `remove` stores `None` even in a matrix built by `default`.

Layout:

- `option.dfy`: module `Options`, Rust's `Option<T>`.
- `error.dfy`: module `Error`: `BoundError`, the decimal rendering of its
  coordinates, and its display message.
- `matrix.dfy`: module `Matrices`: the `Outcome` of a call (`Ok`, `Err`
  or `Panic`), the grid helpers, and the class `Matrix`. The class has two
  constructors, the point write `Add` and its wrapper `Remove`, and the
  reads `Get`, `Row` and `Col`.
- `matrix_tests.dfy`: module `MatrixTests`: the crate's unit tests as
  verified scenarios, plus scenarios for the boundary and axis quirks.

`T::default()` has no Dafny counterpart, so `Default` takes the default value
as a parameter. The references that `get`, `row` and `col` return are
modelled as copied values. `usize` indices and dimensions are `nat`. The
source does no arithmetic on them, so their width plays no part.

## Model

| member | source | states |
|---|---|---|
| `Error.Decimal` | src/error.rs:5 | A coordinate renders as a non-empty string of decimal digits with no leading zero: `0` is the single digit `0`, any other number starts with a non-zero digit. |
| `Error.DecimalRoundTrip` | src/error.rs:5 | Reading the rendered digits back gives the original number. |
| `Error.Message` | src/error.rs:5 | The display text starts with `` out of bounds, got index `( `` and ends with `` )` ``. |
| `Error.MessageDecodes` | src/error.rs:5 | After the prefix the text reads: exactly `Decimal(x)` (value `x`), then `, `, then exactly `Decimal(y)` (value `y`), then `` )` `` and nothing more. |
| `Error.MessageInjective` | src/error.rs:4-6 | Two errors with the same display text are the same error. |
| `Error.MessageOfExceed100` | src/error.rs:5 | `Exceed(100, 100)` displays as `` out of bounds, got index `(100, 100)` ``. |
| `Error.MessageOfExceed3And45` | src/error.rs:5 | `Exceed(3, 45)` displays as `` out of bounds, got index `(3, 45)` ``: `x` first, then `y`. |
| `Matrices.Filled` | src/matrix.rs:19 | `vec![vec![c; x_dim]; y_dim]` gives `y_dim` outer vectors of length `x_dim`, every cell `c`. |
| `Matrices.UnwrapAll` | src/matrix.rs:72-75 | Mapping `unwrap` and collecting succeeds exactly when every entry is `Ok`; the result then has every value in order; otherwise it panics. |
| `Matrices.Matrix.New` | src/matrix.rs:17-23 | Stores both dimensions unchanged; every cell is `None`; the grid is rectangular. |
| `Matrices.Matrix.Default` | src/matrix.rs:27-33 | Same shape as `New`, every cell `Some(default)`. |
| `Matrices.Matrix.Get` | src/matrix.rs:54-61 | Error `Exceed(x, y)` exactly when `x > x_dim` or `y > y_dim`. Otherwise, in any state, a success exactly when the entry `content[x][y]` exists, returning that cell, and a panic when it does not. On a rectangular grid, therefore, success exactly when the check passes, `x < y_dim` and `y < x_dim`; otherwise a panic. |
| `Matrices.Matrix.Col` | src/matrix.rs:67-76 | Error `Exceed(0, col)` exactly when `col > y_dim`. Otherwise `get(pos, col)` for each `pos < y_dim`: success with those `y_dim` cells when all succeed. |
| `Matrices.Matrix.Row` | src/matrix.rs:81-90 | Error `Exceed(x_dim, y_dim)` exactly when `row > x_dim`. Otherwise `get(row, pos)` for each `pos < x_dim`: success with those `x_dim` cells when all succeed. |
| `Matrices.Matrix.ColOnValid` | src/matrix.rs:67-76 | On a rectangular grid, a column that passes the check is returned exactly when `y_dim == 0`, or `col < x_dim` and `y_dim <= x_dim + 1`. |
| `Matrices.Matrix.RowOnValid` | src/matrix.rs:81-90 | On a rectangular grid, a row that passes the check is returned exactly when `x_dim == 0`, or `row < y_dim` and `x_dim <= y_dim + 1`. |
| `Matrices.Matrix.RowColAgree` | src/matrix.rs:72-89 | Entry `j` of `row(i)` equals entry `i` of `col(j)`, and both are `content[i][j]`. |
| `Matrices.Matrix.Add` | src/matrix.rs:37-45 | Error `Exceed(x, y)` exactly when `x > x_dim` or `y > y_dim`. Success exactly when `get(x, y)` would succeed; then only `content[x][y]` changes, to `value`, and `get(x, y)` returns it. Errors and panics leave the grid unchanged. Dimensions never change; the grid stays rectangular. |
| `Matrices.Matrix.Remove` | src/matrix.rs:49-51 | The same contract as `add(x, y, None)`, errors and panics included; afterwards `get(x, y)` gives `None`. |
| `MatrixTests.ConstructorScenario` | src/matrix.rs:99-107 | `new(8, 10)` keeps both dimensions and has 10 outer vectors, the first of 8 cells. |
| `MatrixTests.InsertScenario` | src/matrix.rs:110-125 | On `new(8, 10)`, every `add(x, y, Some(x + y))` with `x < 8`, `y < 3` succeeds and reads back; every other cell stays `None`. |
| `MatrixTests.RemoveScenario` | src/matrix.rs:128-134 | `add(0, 0, Some(10))` then `remove(0, 0)` gives `get(0, 0) == None`. |
| `MatrixTests.OutOfBoundsScenario` | src/matrix.rs:148-152 | `add(100, 100, ..)` on a 1x1 matrix is the error `Exceed(100, 100)`, the value whose `Debug` form the test's panic matches. As a further fact not checked by the test, its display text is `` out of bounds, got index `(100, 100)` ``. |
| `MatrixTests.DebugScenario` | src/matrix.rs:155-175 | After setting `(0,0)`, `(1,0)`, `(2,0)` of a 3x3 matrix to `Some(1)`, `col(0)` is `[Some(1), Some(1), Some(1)]` and `row(0)` is `[Some(1), None, None]`. |
| `MatrixTests.BoundaryScenario` | src/matrix.rs:38-43 | On a fresh 1x1 matrix, `add(1, 0, ..)` passes the check and panics. On another, `add(2, 0, ..)` is `Exceed(2, 0)` and the cell stays `None`. |
| `MatrixTests.AxisScenario` | src/matrix.rs:55-60 | On `new(8, 10)`, `get(9, 0)` is rejected although `content[9][0]` exists; `get(0, 9)` passes the check and panics. |
| `MatrixTests.DefaultRemoveScenario` | src/matrix.rs:49-51 | On a matrix built by `default` with `5`, a cell reads `Some(5)`, and after `remove` it reads `None`. |

## Left out

- Serialization (`serde` derives and the JSON round-trip test, src/matrix.rs:4, 137-145): the external library's format and behaviour are not visible.
- The `Debug` derive and `println!` output (src/matrix.rs:4, 161): formatting plumbing only.
- The `thiserror` derive machinery (src/error.rs:1-3): only its message template is modelled, by `Error.Message`.
- Borrowing and lifetimes of the returned `&Option<T>` and `Vec<&Option<T>>`: results are copied values.
- The text of a panic: a panic is the bare outcome `Panic`. The model leaves the grid as it was before the call, which is the state a caller would see after catching the unwind (`catch_unwind`); without that, the panic ends the calling thread, and the scenarios never use a matrix after a panic.
- Privacy of `content`: in the model any caller may assign `content`, `xDim` and `yDim` directly, as Rust allows for the public `x_dim` and `y_dim` but not for the private `content` (src/matrix.rs:9-11). `Get`, `Row`, `Col`, `Add` and `Remove` require nothing of the state, so their contracts hold for every state such an assignment can produce; only the facts conditioned on `Valid()` need the rectangular shape the constructors establish and `Add` keeps.
