/**
 * Index rules of the results view: which of the three gallery columns an
 * image goes to, and the fraction the batch progress bar shows.
 */
module Layout {

  /** The gallery is `st.columns(3)`. */
  const ColumnCount: nat := 3

  /** `img_cols[i % 3]`: the column of the `i`-th image section. */
  function Column(i: nat): (c: nat)
    ensures c < ColumnCount
    ensures i < ColumnCount ==> c == i
  {
    i % ColumnCount
  }

  /** Columns are dealt round-robin: the next image goes one column to the
      right, wrapping after the last, and so every third image shares a column. */
  lemma ColumnRoundRobin(i: nat)
    ensures Column(i + 1) == (Column(i) + 1) % ColumnCount
    ensures Column(i + ColumnCount) == Column(i)
  {
  }

  /** How many of the first `n` images land in column `c`. */
  function Load(n: nat, c: nat): nat
  {
    if n == 0 then 0 else Load(n - 1, c) + (if Column(n - 1) == c then 1 else 0)
  }

  /** Of `n` images, column `c` holds `ceil((n - c) / 3)`: the columns are filled
      from the left and no column holds more than one image over another. */
  lemma {:induction false} LoadClosedForm(n: nat, c: nat)
    requires c < ColumnCount
    ensures Load(n, c) == (n + ColumnCount - 1 - c) / ColumnCount
  {
    if n > 0 {
      LoadClosedForm(n - 1, c);
    }
  }

  /** Every image is in exactly one column, and the columns are balanced. */
  lemma LoadBalanced(n: nat, c: nat, d: nat)
    requires c < d < ColumnCount
    ensures Load(n, 0) + Load(n, 1) + Load(n, 2) == n
    ensures Load(n, d) <= Load(n, c) <= Load(n, d) + 1
  {
  }

  /** `(idx + 1) / len(uploaded_files)`, the progress after file `idx` of `total`. */
  function Progress(idx: nat, total: nat): (f: real)
    requires idx < total
    ensures 0.0 < f <= 1.0
    ensures f == 1.0 <==> idx + 1 == total
  {
    var k := (idx + 1) as real;
    var n := total as real;
    assert k <= n;
    assert (k / n) * n == k;
    k / n
  }

  /** The bar only moves forward, by `1 / total` per file. */
  lemma ProgressAdvances(idx: nat, total: nat)
    requires idx + 1 < total
    ensures Progress(idx, total) < Progress(idx + 1, total)
    ensures Progress(idx + 1, total) - Progress(idx, total) == 1.0 / (total as real)
  {
  }
}
