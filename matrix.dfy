/** `Matrix<T, M, N>([[T; N]; M])` of src/utils/matrix.rs with `T` idealised as `real`.
    The `M x N` buffer is a two-dimensional array owned by a `Matrix` object; the
    specification works on its row-major contents `Entries()`, a sequence of `M` rows
    of length `N`. */
module Matrices {
  import opened VectorConstGenerics

  /** `m` has `rows` rows of `cols` entries each. */
  predicate Shaped(m: seq<seq<real>>, rows: nat, cols: nat)
  {
    |m| == rows && forall i :: 0 <= i < rows ==> |m[i]| == cols
  }

  /** Column `j` of a matrix with `n` columns. */
  function Column(m: seq<seq<real>>, n: nat, j: nat): (c: seq<real>)
    requires Shaped(m, |m|, n) && j < n
    ensures |c| == |m| && forall k :: 0 <= k < |m| ==> c[k] == m[k][j]
  {
    seq(|m|, k requires 0 <= k < |m| => m[k][j])
  }

  /** The matrix-vector product: entry `i` is row `i` dotted with the vector. */
  function MatVec(m: seq<seq<real>>, v: seq<real>): seq<real>
    requires Shaped(m, |m|, |v|)
  {
    seq(|m|, i requires 0 <= i < |m| => Dot(m[i], v))
  }

  /** The matrix whose column `i` is `columns[i]`: entry `(j, i)` is `columns[i][j]`. */
  function FromColumns(columns: seq<seq<real>>, rows: nat): seq<seq<real>>
    requires forall i :: 0 <= i < |columns| ==> |columns[i]| == rows
  {
    seq(rows, j requires 0 <= j < rows =>
      seq(|columns|, i requires 0 <= i < |columns| => columns[i][j]))
  }

  /** The matrix product: entry `(i, j)` is row `i` of `a` dotted with column `j` of `b`. */
  function MatMul(a: seq<seq<real>>, b: seq<seq<real>>, p: nat): seq<seq<real>>
    requires Shaped(b, |b|, p) && Shaped(a, |a|, |b|)
  {
    seq(|a|, i requires 0 <= i < |a| =>
      seq(p, j requires 0 <= j < p => Dot(a[i], Column(b, p, j))))
  }

  /** `FromColumns` really puts each input in a column, and it is square-shaped. */
  lemma FromColumnsShape(columns: seq<seq<real>>, rows: nat)
    requires forall i :: 0 <= i < |columns| ==> |columns[i]| == rows
    ensures Shaped(FromColumns(columns, rows), rows, |columns|)
    ensures forall i :: 0 <= i < |columns| ==> Column(FromColumns(columns, rows), |columns|, i) == columns[i]
  {
    var m := FromColumns(columns, rows);
    forall i | 0 <= i < |columns| ensures Column(m, |columns|, i) == columns[i] {
      var c := Column(m, |columns|, i);
      assert forall k :: 0 <= k < rows ==> c[k] == columns[i][k];
    }
  }

  /** Multiplying the matrix built from three columns by `v` gives the combination
      `v0 * c0 + v1 * c1 + v2 * c2` of the columns. */
  lemma FromColumnsTimesVector(c0: seq<real>, c1: seq<real>, c2: seq<real>, v: Float3)
    requires |c0| == |c1| == |c2|
    ensures MatVec(FromColumns([c0, c1, c2], |c0|), v)
         == Plus(Plus(Scale(c0, v[0]), Scale(c1, v[1])), Scale(c2, v[2]))
  {
    var m := FromColumns([c0, c1, c2], |c0|);
    var lhs := MatVec(m, v);
    var rhs := Plus(Plus(Scale(c0, v[0]), Scale(c1, v[1])), Scale(c2, v[2]));
    forall j | 0 <= j < |c0| ensures lhs[j] == rhs[j] {
      assert m[j] == [c0[j], c1[j], c2[j]];
      Dot3(m[j], v);
    }
  }

  /** Column `j` of a product is the left factor applied to column `j` of the right. */
  lemma MatMulColumns(a: seq<seq<real>>, b: seq<seq<real>>, p: nat, j: nat)
    requires Shaped(b, |b|, p) && Shaped(a, |a|, |b|) && j < p
    ensures Shaped(MatMul(a, b, p), |a|, p)
    ensures Column(MatMul(a, b, p), p, j) == MatVec(a, Column(b, p, j))
  {
  }

  lemma MatVecExample()
    ensures MatVec([[1.0, 2.0], [3.0, 4.0]], [1.0, 1.0]) == [3.0, 7.0]
  {
    var m, v := [[1.0, 2.0], [3.0, 4.0]], [1.0, 1.0];
    assert m[0][..1] == [1.0] && m[1][..1] == [3.0] && v[..1] == [1.0];
    assert [1.0][..0] == [];
    assert Dot([1.0], [1.0]) == 1.0 && Dot([3.0], [1.0]) == 3.0;
    assert Dot(m[0], v) == 3.0 && Dot(m[1], v) == 7.0;
  }

  lemma MatMulExample()
    ensures MatMul([[1.0, 2.0, 3.0], [4.0, 5.0, 6.0]], [[7.0, 8.0], [9.0, 10.0], [11.0, 12.0]], 2)
         == [[58.0, 64.0], [139.0, 154.0]]
  {
    var a := [[1.0, 2.0, 3.0], [4.0, 5.0, 6.0]];
    var b := [[7.0, 8.0], [9.0, 10.0], [11.0, 12.0]];
    var b0, b1 := Column(b, 2, 0), Column(b, 2, 1);
    assert b0 == [7.0, 9.0, 11.0] && b1 == [8.0, 10.0, 12.0];
    Dot3(a[0], b0);
    Dot3(a[0], b1);
    Dot3(a[1], b0);
    Dot3(a[1], b1);
    var r := MatMul(a, b, 2);
    assert r[0] == [58.0, 64.0] && r[1] == [139.0, 154.0];
  }

  /** A buffer holding `target` entry by entry has `target` as its contents. */
  lemma EntriesAre(mat: Matrix, target: seq<seq<real>>)
    requires Shaped(target, mat.elements.Length0, mat.elements.Length1)
    requires forall r, c :: 0 <= r < mat.elements.Length0 && 0 <= c < mat.elements.Length1 ==>
      mat.elements[r, c] == target[r][c]
    ensures mat.Entries() == target
  {
    forall r | 0 <= r < mat.elements.Length0 ensures mat.Entries()[r] == target[r] {
      assert forall c :: 0 <= c < mat.elements.Length1 ==> mat.Entries()[r][c] == target[r][c];
    }
  }

  /** The innermost loop of `mul`: `sum += a[i][k] * b[k][j]` for `k in 0..N`. */
  method RowTimesColumn(a: seq<seq<real>>, b: seq<seq<real>>, p: nat, i: nat, j: nat)
    returns (sum: real)
    requires Shaped(b, |b|, p) && Shaped(a, |a|, |b|) && i < |a| && j < p
    ensures sum == MatMul(a, b, p)[i][j]
  {
    ghost var row, col := a[i], Column(b, p, j);
    sum := 0.0;
    for k := 0 to |b|
      invariant sum == Dot(row[..k], col[..k])
    {
      assert row[..k + 1][..k] == row[..k] && col[..k + 1][..k] == col[..k];
      sum := sum + a[i][k] * b[k][j];
    }
    assert row[..|b|] == row && col[..|b|] == col;
  }

  /** The two outer loops of `mul`: entry `(i, j)` of a fresh `M x P` buffer receives
      the sum computed by the innermost loop. */
  method ProductBuffer(a: seq<seq<real>>, b: seq<seq<real>>, p: nat) returns (result: array2<real>)
    requires Shaped(b, |b|, p) && Shaped(a, |a|, |b|)
    ensures fresh(result) && result.Length0 == |a| && result.Length1 == p
    ensures forall r, c :: 0 <= r < |a| && 0 <= c < p ==> result[r, c] == MatMul(a, b, p)[r][c]
  {
    result := new real[|a|, p]((_, _) => 0.0);
    for i := 0 to |a|
      invariant forall r, c :: 0 <= r < i && 0 <= c < p ==> result[r, c] == MatMul(a, b, p)[r][c]
    {
      for j := 0 to p
        invariant forall r, c :: 0 <= r < i && 0 <= c < p ==> result[r, c] == MatMul(a, b, p)[r][c]
        invariant forall c :: 0 <= c < j ==> result[i, c] == MatMul(a, b, p)[i][c]
      {
        var sum := RowTimesColumn(a, b, p, i, j);
        result[i, j] := sum;
      }
    }
  }

  /** A matrix owning its `M x N` buffer. */
  class Matrix {
    const elements: array2<real>

    /** The contents, row by row. */
    function Entries(): (m: seq<seq<real>>)
      reads elements
      ensures Shaped(m, elements.Length0, elements.Length1)
    {
      seq(elements.Length0, i requires 0 <= i < elements.Length0 reads elements =>
        seq(elements.Length1, j requires 0 <= j < elements.Length1 reads elements => elements[i, j]))
    }

    /** `new`: the rows are stored unchanged. */
    constructor (rows: seq<seq<real>>, n: nat)
      requires Shaped(rows, |rows|, n)
      ensures fresh(elements) && Entries() == rows
    {
      var e := new real[|rows|, n]((i, j) requires 0 <= i < |rows| && 0 <= j < n => rows[i][j]);
      elements := e;
      new;
      assert forall i :: 0 <= i < |rows| ==> Entries()[i] == rows[i];
    }

    /** A matrix around a buffer built by one of the operations below. */
    constructor Wrap(e: array2<real>)
      ensures elements == e
    {
      elements := e;
    }

    /** `index`: row `i`. */
    function Index(i: nat): (row: seq<real>)
      requires i < elements.Length0
      reads elements
      ensures row == Entries()[i]
    {
      seq(elements.Length1, j requires 0 <= j < elements.Length1 reads elements => elements[i, j])
    }

    /** A write through `index_mut(i)` to entry `j` of row `i`: only that entry changes. */
    method IndexMutSet(i: nat, j: nat, x: real)
      requires i < elements.Length0 && j < elements.Length1
      modifies elements
      ensures Entries() == old(Entries())[i := old(Entries())[i][j := x]]
    {
      elements[i, j] := x;
      forall r | 0 <= r < elements.Length0
        ensures Entries()[r] == old(Entries())[i := old(Entries())[i][j := x]][r]
      {
        assert forall c :: 0 <= c < elements.Length1 ==>
          Entries()[r][c] == old(Entries())[i := old(Entries())[i][j := x]][r][c];
      }
    }

    /** `multiply_by_vector`: `result[i]` is the sum of the products of row `i` with `rhs`. */
    method MultiplyByVector(rhs: seq<real>) returns (r: seq<real>)
      requires |rhs| == elements.Length1
      ensures r == MatVec(Entries(), rhs)
    {
      var result := new real[elements.Length0](_ => 0.0);
      for i := 0 to elements.Length0
        invariant forall k :: 0 <= k < i ==> result[k] == Dot(Entries()[k], rhs)
      {
        result[i] := Dot(Index(i), rhs);
      }
      r := result[..];
    }

    /** `new_from_columns`: `elements[j][i] = columns[i][j]` for every column `i`. */
    static method NewFromColumns(columns: seq<seq<real>>, m: nat) returns (mat: Matrix)
      requires forall i :: 0 <= i < |columns| ==> |columns[i]| == m
      ensures fresh(mat.elements) && mat.Entries() == FromColumns(columns, m)
    {
      var e := new real[m, |columns|]((_, _) => 0.0);
      for i := 0 to |columns|
        invariant forall r, c :: 0 <= r < m && 0 <= c < i ==> e[r, c] == columns[c][r]
      {
        for j := 0 to m
          invariant forall r, c :: 0 <= r < m && 0 <= c < i ==> e[r, c] == columns[c][r]
          invariant forall r :: 0 <= r < j ==> e[r, i] == columns[i][r]
        {
          e[j, i] := columns[i][j];
        }
      }
      mat := new Matrix.Wrap(e);
      assert forall r :: 0 <= r < m ==> mat.Entries()[r] == FromColumns(columns, m)[r];
    }

    /** `mul`: a triple loop filling entry `(i, j)` with the sum of `self[i][k] * rhs[k][j]`,
        read from the contents of the two operands. */
    method Mul(rhs: Matrix) returns (res: Matrix)
      requires elements.Length1 == rhs.elements.Length0
      ensures fresh(res.elements)
      ensures res.Entries() == MatMul(Entries(), rhs.Entries(), rhs.elements.Length1)
    {
      var a, b, p := Entries(), rhs.Entries(), rhs.elements.Length1;
      var result := ProductBuffer(a, b, p);
      res := new Matrix.Wrap(result);
      EntriesAre(res, MatMul(a, b, p));
    }

    /** `eq`: every pair of corresponding entries is equal. */
    function Eq(other: Matrix): (r: bool)
      requires elements.Length0 == other.elements.Length0
      requires elements.Length1 == other.elements.Length1
      reads elements, other.elements
      ensures r <==> Entries() == other.Entries()
    {
      var r := forall i, j :: 0 <= i < elements.Length0 && 0 <= j < elements.Length1 ==>
        elements[i, j] == other.elements[i, j];
      assert r ==> Entries() == other.Entries() by {
        if r {
          forall i | 0 <= i < elements.Length0 ensures Entries()[i] == other.Entries()[i] {
            assert forall j :: 0 <= j < elements.Length1 ==> Entries()[i][j] == other.Entries()[i][j];
          }
        }
      }
      assert Entries() == other.Entries() ==> r by {
        if Entries() == other.Entries() {
          forall i, j | 0 <= i < elements.Length0 && 0 <= j < elements.Length1
            ensures elements[i, j] == other.elements[i, j]
          {
            assert Entries()[i][j] == other.Entries()[i][j];
          }
        }
      }
      r
    }
  }
}
