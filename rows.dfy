// Row-major output. Every converter walks its grid row by row and column by
// column, so what it emits is the concatenation of one sequence per row; this
// module says where cell (i, j) lands in that concatenation.

module Rows {

  /** The rows one after the other. */
  function Concat<T>(rows: seq<seq<T>>): seq<T>
  {
    if rows == [] then [] else Concat(rows[..|rows| - 1]) + rows[|rows| - 1]
  }

  /** Every row has exactly `n` entries. */
  predicate AllOfLength<T>(rows: seq<seq<T>>, n: nat)
  {
    forall i | 0 <= i < |rows| :: |rows[i]| == n
  }

  /** Concatenating one more row appends it. */
  lemma ConcatPush<T>(rows: seq<seq<T>>, i: nat)
    requires i < |rows|
    ensures Concat(rows[..i + 1]) == Concat(rows[..i]) + rows[i]
  {
    assert rows[..i + 1][..i] == rows[..i];
  }

  /** Taking one more element appends it. */
  lemma TakeNext<T>(s: seq<T>, k: nat)
    requires k < |s|
    ensures s[..k + 1] == s[..k] + [s[k]]
  {
  }

  /** k rows of length n make k * n entries. */
  lemma {:induction false} ConcatLength<T>(rows: seq<seq<T>>, n: nat)
    requires AllOfLength(rows, n)
    ensures |Concat(rows)| == |rows| * n
  {
    if rows != [] {
      var k := |rows| - 1;
      ConcatLength(rows[..k], n);
      assert |rows| * n == k * n + n;
    }
  }

  /** The first m rows produce a prefix of the whole output. */
  lemma {:induction false} ConcatPrefix<T>(rows: seq<seq<T>>, m: nat)
    requires m <= |rows|
    ensures Concat(rows[..m]) <= Concat(rows)
  {
    if m < |rows| {
      var k := |rows| - 1;
      ConcatPrefix(rows[..k], m);
      assert rows[..k][..m] == rows[..m];
      assert rows[..|rows|] == rows;
    } else {
      assert rows[..m] == rows;
    }
  }

  /** Entry j of row i sits at position i * n + j of the output. */
  lemma ConcatAt<T>(rows: seq<seq<T>>, n: nat, i: nat, j: nat)
    requires AllOfLength(rows, n) && i < |rows| && j < n
    ensures |Concat(rows)| == |rows| * n
    ensures i * n + j < |Concat(rows)| && Concat(rows)[i * n + j] == rows[i][j]
  {
    ConcatLength(rows, n);
    var before, upTo := Concat(rows[..i]), Concat(rows[..i + 1]);
    ConcatPush(rows, i);
    assert AllOfLength(rows[..i], n);
    ConcatLength(rows[..i], n);
    assert |before| == i * n;
    assert upTo[i * n + j] == rows[i][j];
    ConcatPrefix(rows, i + 1);
    PrefixAt(upTo, Concat(rows), i * n + j);
  }

  lemma PrefixAt<T>(a: seq<T>, b: seq<T>, k: int)
    requires a <= b && 0 <= k < |a|
    ensures k < |b| && b[k] == a[k]
  {
  }

  /** Concatenating two runs of rows is concatenating their outputs. */
  lemma {:induction false} ConcatAppend<T>(a: seq<seq<T>>, b: seq<seq<T>>)
    ensures Concat(a + b) == Concat(a) + Concat(b)
  {
    if b == [] {
      assert a + b == a;
    } else {
      var k := |b| - 1;
      ConcatAppend(a, b[..k]);
      assert (a + b)[..|a + b| - 1] == a + b[..k];
    }
  }
}
