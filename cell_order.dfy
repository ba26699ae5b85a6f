/**
 * The order in which pandas lays out the keys of a pivot: numbers by value,
 * texts by Python's string comparison (code point by code point), missing
 * values last.  Numbers are placed before texts; pandas does not define an
 * order between the two kinds.
 */
module CellOrder {
  import opened Frames

  /** Python's `<` on `str`: lexicographic on character codes, a proper prefix first. */
  predicate StrLess(a: string, b: string) {
    if a == [] then b != []
    else b != [] && (a[0] < b[0] || (a[0] == b[0] && StrLess(a[1..], b[1..])))
  }

  /** The strict order on cells used for sorted pivot axes. */
  predicate Less(x: Cell, y: Cell) {
    match x
    case Num(a) => !y.Num? || a < y.n
    case Text(s) => y.NA? || (y.Text? && StrLess(s, y.s))
    case NA => false
  }

  lemma {:induction false} StrLessIrreflexive(a: string)
    ensures !StrLess(a, a)
  {
    if a != [] {
      StrLessIrreflexive(a[1..]);
    }
  }

  lemma {:induction false} StrLessTransitive(a: string, b: string, c: string)
    requires StrLess(a, b) && StrLess(b, c)
    ensures StrLess(a, c)
  {
    if a != [] && a[0] == b[0] && b[0] == c[0] {
      StrLessTransitive(a[1..], b[1..], c[1..]);
    }
  }

  lemma {:induction false} StrLessTotal(a: string, b: string)
    requires a != b
    ensures StrLess(a, b) || StrLess(b, a)
  {
    if a != [] && b != [] && a[0] == b[0] {
      assert a == [a[0]] + a[1..] && b == [b[0]] + b[1..];
      StrLessTotal(a[1..], b[1..]);
    }
  }

  lemma LessIrreflexive(x: Cell)
    ensures !Less(x, x)
  {
    if x.Text? {
      StrLessIrreflexive(x.s);
    }
  }

  lemma LessTransitive(x: Cell, y: Cell, z: Cell)
    requires Less(x, y) && Less(y, z)
    ensures Less(x, z)
  {
    if x.Text? && y.Text? && z.Text? {
      StrLessTransitive(x.s, y.s, z.s);
    }
  }

  lemma LessTotal(x: Cell, y: Cell)
    requires x != y
    ensures Less(x, y) || Less(y, x)
  {
    if x.Text? && y.Text? {
      StrLessTotal(x.s, y.s);
    }
  }

  /** Strictly increasing: every earlier element is below every later one. */
  predicate Sorted(s: seq<Cell>) {
    forall i, j :: 0 <= i < j < |s| ==> Less(s[i], s[j])
  }

  lemma SortedIsDistinct(s: seq<Cell>)
    requires Sorted(s)
    ensures Distinct(s)
  {
    forall i, j | 0 <= i < j < |s|
      ensures s[i] != s[j]
    {
      LessIrreflexive(s[i]);
    }
  }

  /** Puts `x` into its place in the sorted `s`, unless it is already there. */
  function Insert(x: Cell, s: seq<Cell>): (r: seq<Cell>)
    requires Sorted(s)
    ensures Sorted(r)
    ensures forall c :: c in r <==> c == x || c in s
  {
    if s == [] then [x]
    else if x == s[0] then s
    else if Less(x, s[0]) then
      InsertFrontSorted(x, s);
      [x] + s
    else
      var rest := Insert(x, s[1..]);
      LessTotal(x, s[0]);
      assert forall c :: c in rest ==> Less(s[0], c) by {
        forall c | c in rest
          ensures Less(s[0], c)
        {
          if c != x {
            var j :| 0 <= j < |s[1..]| && s[1..][j] == c;
            assert s[j + 1] == c;
          }
        }
      }
      assert Sorted([s[0]] + rest) by {
        forall i, j | 0 <= i < j < |[s[0]] + rest|
          ensures Less(([s[0]] + rest)[i], ([s[0]] + rest)[j])
        {
          if i == 0 {
            assert ([s[0]] + rest)[j] == rest[j - 1] && rest[j - 1] in rest;
          } else {
            assert ([s[0]] + rest)[i] == rest[i - 1] && ([s[0]] + rest)[j] == rest[j - 1];
          }
        }
      }
      [s[0]] + rest
  }

  lemma InsertFrontSorted(x: Cell, s: seq<Cell>)
    requires Sorted(s) && s != [] && Less(x, s[0])
    ensures Sorted([x] + s)
  {
    forall i, j | 0 <= i < j < |[x] + s|
      ensures Less(([x] + s)[i], ([x] + s)[j])
    {
      if i == 0 && j > 1 {
        LessTransitive(x, s[0], s[j - 1]);
      }
    }
  }

  /**
   * The distinct elements of `s` in increasing order: the axis that a pivot
   * builds from a key column.
   */
  function SortedDistinct(s: seq<Cell>): (r: seq<Cell>)
    ensures Sorted(r)
    ensures forall c :: c in r <==> c in s
  {
    if s == [] then []
    else
      var r := Insert(s[0], SortedDistinct(s[1..]));
      assert forall c :: c in s <==> c == s[0] || c in s[1..] by {
        assert s == [s[0]] + s[1..];
      }
      r
  }

  /** A sorted sequence is determined by its elements. */
  lemma {:induction false} SortedUnique(a: seq<Cell>, b: seq<Cell>)
    requires Sorted(a) && Sorted(b)
    requires forall c :: c in a <==> c in b
    ensures a == b
  {
    assert b != [] ==> b[0] in a;
    assert a != [] ==> a[0] in b;
    if a != [] {
      if a[0] != b[0] {
        assert a[0] in b && b[0] in a;
        var k :| 0 <= k < |b| && b[k] == a[0];
        var m :| 0 <= m < |a| && a[m] == b[0];
        assert Less(b[0], b[k]) && Less(a[0], a[m]);
        LessTransitive(a[0], b[0], a[0]);
        LessIrreflexive(a[0]);
        assert false;
      }
      SortedIsDistinct(a);
      SortedIsDistinct(b);
      forall c
        ensures c in a[1..] <==> c in b[1..]
      {
        if c in a[1..] {
          var i :| 0 <= i < |a[1..]| && a[1..][i] == c;
          assert a[i + 1] == c && c != a[0];
          assert c in b;
          var j :| 0 <= j < |b| && b[j] == c;
          assert j != 0;
          assert b[1..][j - 1] == c;
        }
        if c in b[1..] {
          var i :| 0 <= i < |b[1..]| && b[1..][i] == c;
          assert b[i + 1] == c && c != b[0];
          assert c in a;
          var j :| 0 <= j < |a| && a[j] == c;
          assert j != 0;
          assert a[1..][j - 1] == c;
        }
      }
      SortedUnique(a[1..], b[1..]);
      assert a == [a[0]] + a[1..] && b == [b[0]] + b[1..];
    }
  }

  /** Sorting an already sorted key column changes nothing. */
  lemma SortedDistinctOfSorted(s: seq<Cell>)
    requires Sorted(s)
    ensures SortedDistinct(s) == s
  {
    SortedUnique(SortedDistinct(s), s);
  }
}
