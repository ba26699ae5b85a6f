/**
 * Tables as pandas holds them: a row index, column labels and a rectangular
 * grid of cells.  Every table of the model, from the one `read_csv` returns to
 * the binarized matrix, is a `Frame`.
 */
module Frames {

  /** One cell: a number, a text, or a missing value (pandas' NaN). */
  datatype Cell = Num(n: int) | Text(s: string) | NA

  /** `values[i][k]` is the cell in row `index[i]` and column `columns[k]`. */
  datatype Frame = Frame(index: seq<Cell>, columns: seq<Cell>, values: seq<seq<Cell>>)

  /** One row per index label and one cell per column in every row: what every DataFrame is. */
  predicate Rectangular(f: Frame) {
    |f.values| == |f.index| &&
    forall i :: 0 <= i < |f.values| ==> |f.values[i]| == |f.columns|
  }

  /** No element occurs twice. */
  predicate Distinct<T(==)>(s: seq<T>) {
    forall i, j :: 0 <= i < j < |s| ==> s[i] != s[j]
  }

  /** The elements of a sequence, as a set. */
  function Elements<T>(s: seq<T>): set<T> {
    set x | x in s
  }

  /** A duplicate-free sequence is as long as its set of elements is large. */
  lemma {:induction false} DistinctCard<T>(s: seq<T>)
    requires Distinct(s)
    ensures |Elements(s)| == |s|
  {
    if s == [] {
      assert Elements(s) == {};
    } else {
      var rest := s[1..];
      assert Distinct(rest) by {
        assert forall i :: 0 <= i < |rest| ==> rest[i] == s[i + 1];
      }
      DistinctCard(rest);
      assert s[0] !in Elements(rest) by {
        assert forall i :: 0 <= i < |rest| ==> rest[i] == s[i + 1];
      }
      assert Elements(s) == {s[0]} + Elements(rest) by {
        assert s == [s[0]] + rest;
      }
    }
  }

  /** The cells of column `k`, top to bottom. */
  function Column(f: Frame, k: nat): seq<Cell>
    requires Rectangular(f) && k < |f.columns|
  {
    seq(|f.values|, i requires 0 <= i < |f.values| => f.values[i][k])
  }

  /** The first position of `x` in `s`. */
  function Position<T(==)>(s: seq<T>, x: T): (i: nat)
    requires x in s
    ensures i < |s| && s[i] == x
  {
    if s[0] == x then 0 else 1 + Position(s[1..], x)
  }

  /** `s` without its element at `p`. */
  function RemoveAt<T>(s: seq<T>, p: nat): seq<T>
    requires p < |s|
  {
    s[..p] + s[p + 1..]
  }

  /** How often `x` occurs in `s`. */
  function Count<T(==)>(s: seq<T>, x: T): nat {
    if s == [] then 0 else (if s[0] == x then 1 else 0) + Count(s[1..], x)
  }

  lemma {:induction false} CountZero<T>(s: seq<T>, x: T)
    ensures Count(s, x) == 0 <==> x !in s
  {
    if s != [] {
      CountZero(s[1..], x);
      assert x in s <==> s[0] == x || x in s[1..] by {
        assert s == [s[0]] + s[1..];
      }
    }
  }
}
