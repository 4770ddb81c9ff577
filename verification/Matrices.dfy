/** The product of two matrices, as the pool, the thread per cell and the sequential loops compute it. */
module Matrices {
  import opened Sums

  datatype Input = Input(a: seq<seq<int>>, b: seq<seq<int>>, m: nat, n: nat, p: nat)

  function At(x: seq<seq<int>>, i: nat, k: nat): int {
    if i < |x| && k < |x[i]| then x[i][k] else 0
  }

  /** The first `k` terms of a cell of the product. */
  function Dot(a: seq<seq<int>>, b: seq<seq<int>>, i: nat, j: nat, k: nat): int {
    if k == 0 then 0 else Dot(a, b, i, j, k - 1) + At(a, i, k - 1) * At(b, k - 1, j)
  }

  function Product(x: Input, i: nat, j: nat): int {
    Dot(x.a, x.b, i, j, x.n)
  }

  predicate Shape(a: seq<seq<int>>, rows: nat, cols: nat) {
    |a| == rows && forall i | 0 <= i < rows :: |a[i]| == cols
  }

  predicate Sized(x: Input) {
    Shape(x.a, x.m, x.n) && Shape(x.b, x.n, x.p)
  }

  // ----- What the product is -----

  lemma {:induction false} DotIsSum(x: Input, i: nat, j: nat, k: nat, terms: seq<int>)
    requires Sized(x) && i < x.m && j < x.p && k <= x.n && |terms| == k
    requires forall l | 0 <= l < k :: terms[l] == x.a[i][l] * x.b[l][j]
    ensures Dot(x.a, x.b, i, j, k) == Sum(terms)
  {
    if k > 0 { DotIsSum(x, i, j, k - 1, terms[..k - 1]); }
  }

  /** A row of the first factor times a column of the second. */
  function Terms(x: Input, i: nat, j: nat): (t: seq<int>)
    requires Sized(x) && i < x.m && j < x.p
    ensures |t| == x.n && forall k | 0 <= k < x.n :: t[k] == x.a[i][k] * x.b[k][j]
  {
    seq(x.n, k requires 0 <= k < x.n => x.a[i][k] * x.b[k][j])
  }

  lemma ProductIsSum(x: Input, i: nat, j: nat)
    requires Sized(x) && i < x.m && j < x.p
    ensures Product(x, i, j) == Sum(seq(x.n, k requires 0 <= k < x.n => x.a[i][k] * x.b[k][j]))
    ensures Product(x, i, j) == Sum(Terms(x, i, j))
  {
    DotIsSum(x, i, j, x.n, Terms(x, i, j));
    assert Terms(x, i, j) == seq(x.n, k requires 0 <= k < x.n => x.a[i][k] * x.b[k][j]);
  }

  lemma AllProducts(x: Input)
    requires Sized(x)
    ensures forall i, j | 0 <= i < x.m && 0 <= j < x.p ::
              Product(x, i, j) == Sum(seq(x.n, k requires 0 <= k < x.n => x.a[i][k] * x.b[k][j]))
  {
    forall i, j | 0 <= i < x.m && 0 <= j < x.p
      ensures Product(x, i, j) == Sum(seq(x.n, k requires 0 <= k < x.n => x.a[i][k] * x.b[k][j]))
    {
      ProductIsSum(x, i, j);
    }
  }

  function Multiply(x: Input): (c: seq<seq<int>>)
    requires Sized(x)
    ensures Shape(c, x.m, x.p)
    ensures forall i, j | 0 <= i < x.m && 0 <= j < x.p :: c[i][j] == Product(x, i, j)
  {
    seq(x.m, i requires 0 <= i < x.m => seq(x.p, j requires 0 <= j < x.p => Product(x, i, j)))
  }

  // ----- Its laws -----

  predicate Identity(e: seq<seq<int>>, n: nat) {
    Shape(e, n, n) && forall i, j | 0 <= i < n && 0 <= j < n :: e[i][j] == if i == j then 1 else 0
  }

  /** A sum with one term that may differ from 0. */
  lemma SumSingle(s: seq<int>, i: nat)
    requires i < |s| && forall k | 0 <= k < |s| && k != i :: s[k] == 0
    ensures Sum(s) == s[i]
  {
    SumUpdate(s, i, 0);
    SumZero(s[i := 0]);
  }

  lemma IdentityLeft(x: Input)
    requires Sized(x) && Identity(x.a, x.n) && x.m == x.n
    ensures Multiply(x) == x.b
  {
    forall i, j | 0 <= i < x.m && 0 <= j < x.p ensures Multiply(x)[i][j] == x.b[i][j] {
      ProductIsSum(x, i, j);
      SumSingle(Terms(x, i, j), i);
    }
    forall i | 0 <= i < x.m ensures Multiply(x)[i] == x.b[i] {}
  }

  lemma IdentityRight(x: Input)
    requires Sized(x) && Identity(x.b, x.n) && x.p == x.n
    ensures Multiply(x) == x.a
  {
    forall i, j | 0 <= i < x.m && 0 <= j < x.p ensures Multiply(x)[i][j] == x.a[i][j] {
      ProductIsSum(x, i, j);
      SumSingle(Terms(x, i, j), j);
    }
    forall i | 0 <= i < x.m ensures Multiply(x)[i] == x.a[i] {}
  }

  lemma {:induction false} SumScale(s: seq<int>, t: seq<int>, v: int)
    requires |s| == |t| && forall k | 0 <= k < |s| :: t[k] == s[k] * v
    ensures Sum(t) == Sum(s) * v
  {
    if s != [] {
      var n := |s| - 1;
      SumScale(s[..n], t[..n], v);
      assert Sum(s) * v == Sum(s[..n]) * v + s[n] * v;
    }
  }

  function Column(g: seq<seq<int>>, j: nat, width: nat): (c: seq<int>)
    requires Shape(g, |g|, width) && j < width
    ensures |c| == |g| && forall i | 0 <= i < |g| :: c[i] == g[i][j]
  {
    seq(|g|, i requires 0 <= i < |g| => g[i][j])
  }

  function RowSums(g: seq<seq<int>>): (s: seq<int>)
    ensures |s| == |g|
  {
    seq(|g|, i requires 0 <= i < |g| => Sum(g[i]))
  }

  function ColumnSums(g: seq<seq<int>>, width: nat): (s: seq<int>)
    requires Shape(g, |g|, width)
    ensures |s| == width
  {
    seq(width, j requires 0 <= j < width => Sum(Column(g, j, width)))
  }

  lemma RowSumsOn(g: seq<seq<int>>)
    requires g != []
    ensures Sum(RowSums(g)) == Sum(RowSums(g[..|g| - 1])) + Sum(g[|g| - 1])
  {
    assert RowSums(g)[..|g| - 1] == RowSums(g[..|g| - 1]);
  }

  lemma ColumnOn(g: seq<seq<int>>, j: nat, width: nat)
    requires g != [] && Shape(g, |g|, width) && j < width
    ensures Sum(Column(g, j, width)) == Sum(Column(g[..|g| - 1], j, width)) + g[|g| - 1][j]
  {
    assert Column(g, j, width)[..|g| - 1] == Column(g[..|g| - 1], j, width);
  }

  lemma ColumnSumsOn(g: seq<seq<int>>, width: nat)
    requires g != [] && Shape(g, |g|, width)
    ensures Sum(ColumnSums(g, width)) == Sum(ColumnSums(g[..|g| - 1], width)) + Sum(g[|g| - 1])
  {
    var above, all := ColumnSums(g[..|g| - 1], width), ColumnSums(g, width);
    forall j | 0 <= j < width ensures all[j] == above[j] + g[|g| - 1][j] {
      ColumnOn(g, j, width);
    }
    SumAdd(above, g[|g| - 1], all);
  }

  /** The cells of a grid add up to the same by rows and by columns. */
  lemma {:induction false} SumSwap(g: seq<seq<int>>, width: nat)
    requires Shape(g, |g|, width)
    ensures Sum(RowSums(g)) == Sum(ColumnSums(g, width))
  {
    if g == [] {
      SumZero(ColumnSums(g, width));
    } else {
      SumSwap(g[..|g| - 1], width);
      RowSumsOn(g);
      ColumnSumsOn(g, width);
    }
  }

  predicate Chained(ab: Input, bc: Input) {
    Sized(ab) && Sized(bc) && ab.b == bc.a && ab.n == bc.m && ab.p == bc.n
  }

  /** The first two multiplied, then by the third. */
  function AbThenC(ab: Input, bc: Input): (x: Input)
    requires Chained(ab, bc)
    ensures Sized(x)
  {
    Input(Multiply(ab), bc.b, ab.m, bc.n, bc.p)
  }

  function AThenBc(ab: Input, bc: Input): (x: Input)
    requires Chained(ab, bc)
    ensures Sized(x)
  {
    Input(ab.a, Multiply(bc), ab.m, ab.n, bc.p)
  }

  /** The products that add up to a cell: one factor from a row of the first, one from the second and
      one from a column of the third. */
  function Grid(ab: Input, bc: Input, i: nat, j: nat): (g: seq<seq<int>>)
    requires Chained(ab, bc) && i < ab.m && j < bc.p
    ensures Shape(g, ab.n, ab.p)
  {
    seq(ab.n, l requires 0 <= l < ab.n =>
      seq(ab.p, k requires 0 <= k < ab.p => ab.a[i][l] * ab.b[l][k] * bc.b[k][j]))
  }

  lemma RowOfGrid(ab: Input, bc: Input, i: nat, j: nat, l: nat)
    requires Chained(ab, bc) && i < ab.m && j < bc.p && l < ab.n
    ensures Terms(AThenBc(ab, bc), i, j)[l] == Sum(Grid(ab, bc, i, j)[l])
  {
    ProductIsSum(bc, l, j);
    var terms, row, v := Terms(bc, l, j), Grid(ab, bc, i, j)[l], ab.a[i][l];
    forall k | 0 <= k < bc.n ensures row[k] == terms[k] * v {
      Regroup(v, bc.a[l][k], bc.b[k][j]);
    }
    SumScale(terms, row, v);
  }

  lemma ColumnOfGrid(ab: Input, bc: Input, i: nat, j: nat, k: nat)
    requires Chained(ab, bc) && i < ab.m && j < bc.p && k < ab.p
    ensures Terms(AbThenC(ab, bc), i, j)[k] == Sum(Column(Grid(ab, bc, i, j), k, ab.p))
  {
    ProductIsSum(ab, i, k);
    SumScale(Terms(ab, i, k), Column(Grid(ab, bc, i, j), k, ab.p), bc.b[k][j]);
  }

  lemma RowsOfGrid(ab: Input, bc: Input, i: nat, j: nat)
    requires Chained(ab, bc) && i < ab.m && j < bc.p
    ensures Terms(AThenBc(ab, bc), i, j) == RowSums(Grid(ab, bc, i, j))
  {
    var terms, sums := Terms(AThenBc(ab, bc), i, j), RowSums(Grid(ab, bc, i, j));
    forall l | 0 <= l < ab.n ensures terms[l] == sums[l] {
      RowOfGrid(ab, bc, i, j, l);
    }
  }

  lemma ColumnsOfGrid(ab: Input, bc: Input, i: nat, j: nat)
    requires Chained(ab, bc) && i < ab.m && j < bc.p
    ensures Terms(AbThenC(ab, bc), i, j) == ColumnSums(Grid(ab, bc, i, j), ab.p)
  {
    var terms, sums := Terms(AbThenC(ab, bc), i, j), ColumnSums(Grid(ab, bc, i, j), ab.p);
    forall k | 0 <= k < ab.p ensures terms[k] == sums[k] {
      ColumnOfGrid(ab, bc, i, j, k);
    }
  }

  lemma AssociativeAt(ab: Input, bc: Input, i: nat, j: nat)
    requires Chained(ab, bc) && i < ab.m && j < bc.p
    ensures Product(AbThenC(ab, bc), i, j) == Product(AThenBc(ab, bc), i, j)
  {
    ProductIsSum(AbThenC(ab, bc), i, j);
    ProductIsSum(AThenBc(ab, bc), i, j);
    RowsOfGrid(ab, bc, i, j);
    ColumnsOfGrid(ab, bc, i, j);
    SumSwap(Grid(ab, bc, i, j), ab.p);
  }

  lemma Regroup(x: int, y: int, z: int)
    ensures x * y * z == y * z * x
  {}

  lemma Associative(ab: Input, bc: Input)
    requires Chained(ab, bc)
    ensures Multiply(AbThenC(ab, bc)) == Multiply(AThenBc(ab, bc))
  {
    var left, right := Multiply(AbThenC(ab, bc)), Multiply(AThenBc(ab, bc));
    forall i | 0 <= i < ab.m ensures left[i] == right[i] {
      forall j | 0 <= j < bc.p ensures left[i][j] == right[i][j] {
        AssociativeAt(ab, bc, i, j);
      }
    }
  }
}
