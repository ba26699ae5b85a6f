/**
 * Pairwise Jaccard distances between the rows of a binarized matrix, three
 * strategies to compute them, their conversion to a labelled similarity
 * matrix, and the router that picks a strategy.
 *
 * A cell counts as "present" when it is not the number 0, numpy's reading of
 * a cell as a boolean.  The library calls (scikit-learn's pairwise distances,
 * scipy's per-pair distance, pandas' correlation with a callable) are not
 * modelled; each is taken to compute `JaccardSpec.Distance` exactly.
 */
module CalculateJaccard {
  import opened Wrappers
  import opened Frames
  import opened CellOrder
  import opened JaccardSpec
  import InputParser

  // ---------------------------------------------------------------------------
  // The distance matrix every strategy computes
  // ---------------------------------------------------------------------------

  /** The column positions a row holds. */
  function Members(row: seq<Cell>): set<nat> {
    set j: nat | j < |row| && row[j] != Num(0)
  }

  /** Jaccard distance between rows `i` and `j` of `m`. */
  function PairDistance(m: Frame, i: nat, j: nat): real
    requires Rectangular(m) && i < |m.values| && j < |m.values|
  {
    Distance(Members(m.values[i]), Members(m.values[j]))
  }

  /** The N x N distance matrix in row order. */
  function DistanceMatrix(m: Frame): seq<seq<real>>
    requires Rectangular(m)
  {
    seq(|m.values|, i requires 0 <= i < |m.values| =>
      seq(|m.values|, j requires 0 <= j < |m.values| => PairDistance(m, i, j)))
  }

  /** A square matrix: as many columns in every row as there are rows. */
  predicate Square(d: seq<seq<real>>) {
    forall i :: 0 <= i < |d| ==> |d[i]| == |d|
  }

  /** Symmetric, zero on the diagonal, every entry in [0, 1]. */
  lemma DistanceMatrixProperties(m: Frame)
    requires Rectangular(m)
    ensures |DistanceMatrix(m)| == |m.index| && Square(DistanceMatrix(m))
    ensures forall i, j :: 0 <= i < |m.index| && 0 <= j < |m.index| ==>
              DistanceMatrix(m)[i][j] == DistanceMatrix(m)[j][i] &&
              0.0 <= DistanceMatrix(m)[i][j] <= 1.0
    ensures forall i :: 0 <= i < |m.index| ==> DistanceMatrix(m)[i][i] == 0.0
  {
    var d := DistanceMatrix(m);
    forall i, j | 0 <= i < |m.index| && 0 <= j < |m.index|
      ensures d[i][j] == d[j][i] && 0.0 <= d[i][j] <= 1.0
    {
      DistanceSymmetric(Members(m.values[i]), Members(m.values[j]));
      DistanceBounds(Members(m.values[i]), Members(m.values[j]));
    }
    forall i | 0 <= i < |m.index|
      ensures d[i][i] == 0.0
    {
      DistanceToSelf(Members(m.values[i]));
    }
  }

  /** An off-diagonal zero means two rows with the same categories. */
  lemma DistanceZeroIffSameRow(m: Frame, i: nat, j: nat)
    requires Rectangular(m) && i < |m.index| && j < |m.index|
    ensures DistanceMatrix(m)[i][j] == 0.0 <==> Members(m.values[i]) == Members(m.values[j])
  {
    DistanceZeroIff(Members(m.values[i]), Members(m.values[j]));
  }

  /** A 0/1 row read through a duplicate-free axis gives the categories its 1s name. */
  lemma MembersThroughAxis(f: Frame, k: nat)
    requires Rectangular(f) && k < |f.index| && Distinct(f.columns)
    requires forall j :: 0 <= j < |f.columns| ==> f.values[k][j] in {Num(0), Num(1)}
    ensures Positions(Members(f.values[k]), f.columns)
    ensures Image(Members(f.values[k]), f.columns) == InputParser.RowLabels(f, k)
  {
  }

  /**
   * End to end for pseudo-tabular input: the distance between two entities of
   * the binarized matrix is the Jaccard distance of their label sets.
   */
  lemma TabularDistanceIsLabelDistance(t: Frame, cats: seq<Cell>, k1: nat, k2: nat)
    requires Rectangular(t) && InputParser.EnumeratesCategories(t, cats)
    requires k1 < |t.columns| && k2 < |t.columns|
    ensures Rectangular(InputParser.Binarize(t, cats))
    ensures DistanceMatrix(InputParser.Binarize(t, cats))[k1][k2] == Distance(InputParser.LabelSet(t, k1), InputParser.LabelSet(t, k2))
  {
    var r := InputParser.Binarize(t, cats);
    InputParser.TabularRoundTrip(t, cats, k1);
    InputParser.TabularRoundTrip(t, cats, k2);
    MembersThroughAxis(r, k1);
    MembersThroughAxis(r, k2);
    DistanceOfImages(Members(r.values[k1]), Members(r.values[k2]), cats);
  }

  /**
   * End to end for long input: the distance between two entities is the
   * Jaccard distance of the label sets the input pairs with them.
   */
  lemma LongDistanceIsLabelDistance(t: Frame, i1: nat, i2: nat)
    requires Rectangular(t) && InputParser.BinarizeLong(t).Success?
    requires i1 < |InputParser.BinarizeLong(t).value.index| && i2 < |InputParser.BinarizeLong(t).value.index|
    ensures |t.columns| >= 2
    ensures DistanceMatrix(InputParser.BinarizeLong(t).value)[i1][i2] ==
            Distance(InputParser.PairedLabels(t, InputParser.BinarizeLong(t).value.index[i1]),
                     InputParser.PairedLabels(t, InputParser.BinarizeLong(t).value.index[i2]))
  {
    var r := InputParser.BinarizeLong(t).value;
    SortedIsDistinct(r.columns);
    InputParser.LongRoundTrip(t, i1);
    InputParser.LongRoundTrip(t, i2);
    MembersThroughAxis(r, i1);
    MembersThroughAxis(r, i2);
    DistanceOfImages(Members(r.values[i1]), Members(r.values[i2]), r.columns);
  }

  // ---------------------------------------------------------------------------
  // Strategies
  // ---------------------------------------------------------------------------

  /**
   * What pandas' `corr` with a callable yields over the entities: the
   * callable's value off the diagonal and 1 on it.
   */
  function CorrWithDistance(m: Frame): seq<seq<real>>
    requires Rectangular(m)
  {
    seq(|m.values|, i requires 0 <= i < |m.values| =>
      seq(|m.values|, j requires 0 <= j < |m.values| => if i == j then 1.0 else PairDistance(m, i, j)))
  }

  /** `np.fill_diagonal`: sets every entry `a[i, i]` to `v` and leaves the rest. */
  method FillDiagonal(a: array2<real>, v: real)
    modifies a
    ensures forall i, j :: 0 <= i < a.Length0 && 0 <= j < a.Length1 ==>
              a[i, j] == if i == j then v else old(a[i, j])
  {
    var i := 0;
    while i < a.Length0 && i < a.Length1
      invariant 0 <= i
      invariant forall p, q :: 0 <= p < a.Length0 && 0 <= q < a.Length1 ==>
                  a[p, q] == if p == q && p < i then v else old(a[p, q])
    {
      a[i, i] := v;
      i := i + 1;
    }
  }

  /** `jaccard_pandas`: the correlation matrix with its diagonal overwritten by 0. */
  method JaccardPandas(m: Frame) returns (d: array2<real>)
    requires Rectangular(m)
    ensures fresh(d) && d.Length0 == |m.index| && d.Length1 == |m.index|
    ensures forall i, j :: 0 <= i < |m.index| && 0 <= j < |m.index| ==> d[i, j] == DistanceMatrix(m)[i][j]
  {
    var n := |m.values|;
    var c := CorrWithDistance(m);
    d := new real[n, n]((i, j) requires 0 <= i < n && 0 <= j < n => c[i][j]);
    FillDiagonal(d, 0.0);
    DistanceMatrixProperties(m);
  }

  /**
   * The nested loop of `jaccard_loop`, storing each pair's distance at its
   * position: row and column `i` belong to the entity in row `i` of `m`.
   */
  method JaccardLoop(m: Frame) returns (d: array2<real>)
    requires Rectangular(m)
    ensures fresh(d) && d.Length0 == |m.index| && d.Length1 == |m.index|
    ensures forall i, j :: 0 <= i < |m.index| && 0 <= j < |m.index| ==> d[i, j] == DistanceMatrix(m)[i][j]
  {
    var n := |m.values|;
    d := new real[n, n];
    for i := 0 to n
      invariant forall a, b :: 0 <= a < i && 0 <= b < n ==> d[a, b] == PairDistance(m, a, b)
    {
      for j := 0 to n
        invariant forall a, b :: 0 <= a < i && 0 <= b < n ==> d[a, b] == PairDistance(m, a, b)
        invariant forall b :: 0 <= b < j ==> d[i, b] == PairDistance(m, i, b)
      {
        d[i, j] := PairDistance(m, i, j);
      }
    }
  }

  /** The rows of a two-dimensional array, as sequences. */
  function Rows(a: array2<real>): seq<seq<real>>
    reads a
  {
    seq(a.Length0, i requires 0 <= i < a.Length0 reads a =>
      seq(a.Length1, j requires 0 <= j < a.Length1 reads a => a[i, j]))
  }

  // ---------------------------------------------------------------------------
  // Distance to similarity
  // ---------------------------------------------------------------------------

  /** A similarity table whose rows and columns carry entity names. */
  datatype SimFrame = SimFrame(index: seq<string>, columns: seq<string>, values: seq<seq<real>>)

  /** What `dist_to_sim` raises. */
  datatype SimError =
    | LabelCountMismatch  // the labels do not match the number of columns
    | RowCountMismatch    // the "Entity" column cannot be filled: rows and labels differ in number

  /** The number of columns of a matrix (`shape[1]`); an empty matrix has none. */
  function Width(d: seq<seq<real>>): nat {
    if d == [] then 0 else |d[0]|
  }

  /** A two-dimensional array: every row as wide as the first. */
  predicate Grid(d: seq<seq<real>>) {
    forall i :: 0 <= i < |d| ==> |d[i]| == Width(d)
  }

  /** The decimal digits of `n`, as `str(n)` writes them. */
  function NatToString(n: nat): (s: string)
    ensures s != [] && (n < 10 <==> |s| == 1)
    ensures forall i :: 0 <= i < |s| ==> '0' <= s[i] <= '9'
  {
    if n < 10 then [Digit(n)] else NatToString(n / 10) + [Digit(n % 10)]
  }

  function Digit(n: nat): char
    requires n < 10
  {
    "0123456789"[n]
  }

  lemma {:induction false} NatToStringInjective(a: nat, b: nat)
    requires NatToString(a) == NatToString(b)
    ensures a == b
  {
    if a >= 10 && b >= 10 {
      var sa, sb := NatToString(a), NatToString(b);
      assert sa[|sa| - 1] == Digit(a % 10) && sb[|sb| - 1] == Digit(b % 10);
      assert sa[..|sa| - 1] == NatToString(a / 10);
      assert sb[..|sb| - 1] == NatToString(b / 10);
      NatToStringInjective(a / 10, b / 10);
    }
  }

  /** The labels `dist_to_sim` invents: "e_0", "e_1", ... */
  function DefaultLabels(n: nat): seq<string> {
    seq(n, x requires 0 <= x < n => "e_" + NatToString(x))
  }

  /** The invented labels name every entity differently and never read "Entity". */
  lemma DefaultLabelsDistinct(n: nat)
    ensures Distinct(DefaultLabels(n))
    ensures "Entity" !in DefaultLabels(n)
  {
    var ls := DefaultLabels(n);
    forall i, j | 0 <= i < j < n
      ensures ls[i] != ls[j]
    {
      if ls[i] == ls[j] {
        assert ls[i][2..] == NatToString(i) && ls[j][2..] == NatToString(j);
        NatToStringInjective(i, j);
      }
    }
    assert forall x :: 0 <= x < n ==> ls[x][0] == 'e';
    assert "Entity"[0] == 'E';
  }

  /** The labels `dist_to_sim` uses: the given ones, or invented ones. */
  function LabelsFor(d: seq<seq<real>>, labels: Option<seq<string>>): seq<string> {
    match labels
    case None => DefaultLabels(Width(d))
    case Some(l) => l
  }

  /**
   * `dist_to_sim`: checks the labels against the number of columns, names
   * rows and columns by them and returns 1 - d entry by entry.
   */
  function DistToSim(d: seq<seq<real>>, labels: Option<seq<string>> := None): (r: Result<SimFrame, SimError>)
    requires Grid(d)
    ensures r.Success? <==> |LabelsFor(d, labels)| == Width(d) && |d| == Width(d)
    ensures r.Failure? ==> (r.error == LabelCountMismatch <==> |LabelsFor(d, labels)| != Width(d))
    ensures r.Success? ==>
      r.value.index == LabelsFor(d, labels) && r.value.columns == LabelsFor(d, labels) &&
      |r.value.values| == |d| &&
      forall i :: 0 <= i < |d| ==>
        |r.value.values[i]| == |d| &&
        forall j :: 0 <= j < |d| ==> r.value.values[i][j] + d[i][j] == 1.0
  {
    var n := Width(d);
    var names := LabelsFor(d, labels);
    if |names| != n then Failure(LabelCountMismatch)
    else if |d| != n then Failure(RowCountMismatch)
    else
      Success(SimFrame(names, names,
                       seq(n, i requires 0 <= i < n =>
                         seq(n, j requires 0 <= j < n => 1.0 - d[i][j]))))
  }

  /**
   * The similarity matrix of a binarized table: it always converts, its
   * labels are distinct, it is symmetric with 1 on the diagonal, and each
   * entry is the Jaccard index of the two rows.
   */
  lemma SimilarityMatrixProperties(m: Frame)
    requires Rectangular(m)
    ensures DistToSim(DistanceMatrix(m), None).Success?
    ensures Distinct(DistToSim(DistanceMatrix(m), None).value.index)
    ensures forall i, j :: 0 <= i < |m.index| && 0 <= j < |m.index| ==>
              SimilarityAt(m, i, j) == SimilarityAt(m, j, i) && 0.0 <= SimilarityAt(m, i, j) <= 1.0 &&
              SimilarityAt(m, i, j) == Index(Members(m.values[i]), Members(m.values[j]))
    ensures forall i :: 0 <= i < |m.index| ==> SimilarityAt(m, i, i) == 1.0
  {
    var d := DistanceMatrix(m);
    DistanceMatrixProperties(m);
    DefaultLabelsDistinct(|m.index|);
    forall i, j | 0 <= i < |m.index| && 0 <= j < |m.index|
      ensures SimilarityAt(m, i, j) == 1.0 - d[i][j]
      ensures SimilarityAt(m, i, j) == Index(Members(m.values[i]), Members(m.values[j]))
    {
      OneMinusDistance(Members(m.values[i]), Members(m.values[j]));
    }
  }

  /** Entry (i, j) of the similarity table of `m`. */
  function SimilarityAt(m: Frame, i: nat, j: nat): real
    requires Rectangular(m) && i < |m.index| && j < |m.index|
  {
    DistanceMatrixProperties(m);
    DistToSim(DistanceMatrix(m), None).value.values[i][j]
  }

  // ---------------------------------------------------------------------------
  // The router
  // ---------------------------------------------------------------------------

  /** The three strategies of `calculate_jaccard`. */
  datatype Approach = Scikit | Pandas | Loop

  /** The strategy a name selects; an unknown name falls back to scikit. */
  function ApproachNamed(name: string): (a: Approach)
    ensures a == Pandas <==> name == "pandas"
    ensures a == Loop <==> name == "loop"
    ensures a == Scikit <==> name != "pandas" && name != "loop"
  {
    if name == "pandas" then Pandas
    else if name == "loop" then Loop
    else Scikit
  }

  /** Either the raw distance matrix or the labelled similarity table. */
  datatype JaccardOutput = Distances(d: seq<seq<real>>) | Similarities(s: SimFrame)

  /**
   * `calculate_jaccard`: runs the selected strategy and optionally converts
   * its result.  Whichever strategy runs, the result is the distance matrix
   * of the rows, and the conversion never fails.
   */
  method CalculateJaccard(m: Frame, approach: string := "scikit", convertSimilarity: bool := false)
    returns (r: JaccardOutput)
    requires Rectangular(m)
    ensures !convertSimilarity ==> r == Distances(DistanceMatrix(m))
    ensures convertSimilarity ==>
      DistToSim(DistanceMatrix(m), None).Success? &&
      r == Similarities(DistToSim(DistanceMatrix(m), None).value)
  {
    var dist: seq<seq<real>>;
    match ApproachNamed(approach) {
      case Scikit =>
        dist := DistanceMatrix(m);
      case Pandas =>
        var a := JaccardPandas(m);
        dist := Rows(a);
        assert forall i :: 0 <= i < |m.index| ==> dist[i] == DistanceMatrix(m)[i];
      case Loop =>
        var a := JaccardLoop(m);
        dist := Rows(a);
        assert forall i :: 0 <= i < |m.index| ==> dist[i] == DistanceMatrix(m)[i];
    }
    assert dist == DistanceMatrix(m);
    DistanceMatrixProperties(m);
    if convertSimilarity {
      var s := DistToSim(dist);
      r := Similarities(s.value);
    } else {
      r := Distances(dist);
    }
  }

  // ---------------------------------------------------------------------------
  // `jaccard_loop` as written: a list of triples, then a pivot
  // ---------------------------------------------------------------------------

  /** One recorded `(n1, n2, ds)` entry. */
  datatype Triple = Triple(e1: Cell, e2: Cell, val: real)

  /** What `jaccard_loop` raises after its loop. */
  datatype PivotError =
    | NoTriples              // nothing recorded: the empty frame has no columns to name "e1", "e2", "val"
    | DuplicatePivotEntries  // a repeated label; reported after the loop, where scipy already rejects the multi-column selection

  /** The triples recorded while `n1` is the entity in row `i`: one per `n2`, in row order. */
  function RowPairs(m: Frame, i: nat): seq<Triple>
    requires Rectangular(m) && i < |m.index|
  {
    seq(|m.index|, j requires 0 <= j < |m.index| => Triple(m.index[i], m.index[j], PairDistance(m, i, j)))
  }

  /** The triples recorded once the outer loop has finished rows 0 .. k-1. */
  function PairsUpTo(m: Frame, k: nat): seq<Triple>
    requires Rectangular(m) && k <= |m.index|
  {
    if k == 0 then [] else PairsUpTo(m, k - 1) + RowPairs(m, k - 1)
  }

  /** Everything the nested loop records. */
  function AllPairs(m: Frame): seq<Triple>
    requires Rectangular(m)
  {
    PairsUpTo(m, |m.index|)
  }

  /** After `k` rows, k * N triples: N * N once the loop is done. */
  lemma {:induction false} PairsUpToLength(m: Frame, k: nat)
    requires Rectangular(m) && k <= |m.index|
    ensures |PairsUpTo(m, k)| == k * |m.index|
  {
    if k > 0 {
      PairsUpToLength(m, k - 1);
    }
  }

  /** After `k` rows, every ordered pair whose first entity is among them is recorded. */
  lemma {:induction false} PairsUpToComplete(m: Frame, k: nat, i: nat, j: nat)
    requires Rectangular(m) && i < k <= |m.index| && j < |m.index|
    ensures Triple(m.index[i], m.index[j], PairDistance(m, i, j)) in PairsUpTo(m, k)
  {
    if i == k - 1 {
      assert RowPairs(m, i)[j] == Triple(m.index[i], m.index[j], PairDistance(m, i, j));
    } else {
      PairsUpToComplete(m, k - 1, i, j);
    }
  }

  /** Every recorded key is an index label. */
  lemma {:induction false} PairsUpToKeys(m: Frame, k: nat)
    requires Rectangular(m) && k <= |m.index|
    ensures forall t :: t in PairsUpTo(m, k) ==> t.e1 in m.index && t.e2 in m.index
  {
    if k > 0 {
      PairsUpToKeys(m, k - 1);
      var prev, row := PairsUpTo(m, k - 1), RowPairs(m, k - 1);
      forall t: Triple | t in prev + row
        ensures t.e1 in m.index && t.e2 in m.index
      {
        if t in row {
          var j :| 0 <= j < |row| && row[j] == t;
        }
      }
    }
  }

  lemma {:induction false} PairsUpToPrefix(m: Frame, k: nat, l: nat)
    requires Rectangular(m) && k <= l <= |m.index|
    ensures PairsUpTo(m, k) <= PairsUpTo(m, l)
  {
    if k < l {
      PairsUpToPrefix(m, k, l - 1);
    }
  }

  /** The nested loop of `jaccard_loop`: records the distance of every ordered pair. */
  method RecordDistances(m: Frame) returns (ts: seq<Triple>)
    requires Rectangular(m)
    ensures ts == AllPairs(m)
  {
    var n := |m.index|;
    ts := [];
    for i := 0 to n
      invariant ts == PairsUpTo(m, i)
    {
      for j := 0 to n
        invariant ts == PairsUpTo(m, i) + RowPairs(m, i)[..j]
      {
        ts := ts + [Triple(m.index[i], m.index[j], PairDistance(m, i, j))];
        assert RowPairs(m, i)[..j + 1] == RowPairs(m, i)[..j] + [RowPairs(m, i)[j]];
      }
      assert RowPairs(m, i)[..n] == RowPairs(m, i);
    }
  }

  /** No two triples share their pair of keys. */
  predicate KeysDistinct(ts: seq<Triple>) {
    forall p, q :: 0 <= p < q < |ts| ==> ts[p].e1 != ts[q].e1 || ts[p].e2 != ts[q].e2
  }

  /** The value of the first triple keyed `(x, y)`; pandas leaves NaN where there is none, 0 stands for it here. */
  function ValueAt(ts: seq<Triple>, x: Cell, y: Cell): real {
    if ts == [] then 0.0
    else if ts[0].e1 == x && ts[0].e2 == y then ts[0].val
    else ValueAt(ts[1..], x, y)
  }

  lemma {:induction false} ValueAtUnique(ts: seq<Triple>, p: nat)
    requires KeysDistinct(ts) && p < |ts|
    ensures ValueAt(ts, ts[p].e1, ts[p].e2) == ts[p].val
  {
    if p > 0 {
      assert ts[1..][p - 1] == ts[p];
      ValueAtUnique(ts[1..], p - 1);
    }
  }

  /**
   * `pivot(index="e1", columns="e2")` of the triples: refuses repeated key
   * pairs, and lays the values out on the sorted distinct keys.
   */
  function Pivot(ts: seq<Triple>): Result<seq<seq<real>>, PivotError> {
    if !KeysDistinct(ts) then Failure(DuplicatePivotEntries)
    else
      var rows, cols := SortedDistinct(FirstKeys(ts)), SortedDistinct(SecondKeys(ts));
      Success(seq(|rows|, a requires 0 <= a < |rows| =>
                seq(|cols|, b requires 0 <= b < |cols| => ValueAt(ts, rows[a], cols[b]))))
  }

  /** The `e1` column of the triples. */
  function FirstKeys(ts: seq<Triple>): seq<Cell> {
    seq(|ts|, p requires 0 <= p < |ts| => ts[p].e1)
  }

  /** The `e2` column of the triples. */
  function SecondKeys(ts: seq<Triple>): seq<Cell> {
    seq(|ts|, p requires 0 <= p < |ts| => ts[p].e2)
  }

  /**
   * The distance matrix laid out by sorted index labels: row and column `a`
   * belong to the entity with the `a`-th smallest label.
   */
  function SortedDistanceMatrix(m: Frame): seq<seq<real>>
    requires Rectangular(m)
  {
    var keys := SortedDistinct(m.index);
    seq(|keys|, a requires 0 <= a < |keys| =>
      seq(|keys|, b requires 0 <= b < |keys| =>
        PairDistance(m, Position(m.index, keys[a]), Position(m.index, keys[b]))))
  }

  /** A repeated index label gives two triples with the same keys. */
  lemma RepeatedLabelRepeatsKeys(m: Frame)
    requires Rectangular(m) && !Distinct(m.index)
    ensures !KeysDistinct(AllPairs(m))
  {
    var i, j :| 0 <= i < j < |m.index| && m.index[i] == m.index[j];
    var prev, row := PairsUpTo(m, j), RowPairs(m, j);
    var pre, ts := PairsUpTo(m, j + 1), AllPairs(m);
    assert pre == prev + row;
    PairsUpToPrefix(m, j + 1, |m.index|);
    PairsUpToComplete(m, j, i, i);
    var p :| 0 <= p < |prev| && prev[p] == Triple(m.index[i], m.index[i], PairDistance(m, i, i));
    var q := |prev| + j;
    assert ts[p] == pre[p] == prev[p];
    assert ts[q] == pre[q] == row[j];
    assert p < q < |ts| && ts[p].e1 == ts[q].e1 && ts[p].e2 == ts[q].e2;
  }

  /** With distinct index labels no two triples share their keys. */
  lemma {:induction false} DistinctLabelsDistinctKeys(m: Frame, k: nat)
    requires Rectangular(m) && Distinct(m.index) && k <= |m.index|
    ensures KeysDistinct(PairsUpTo(m, k))
    ensures forall t :: t in PairsUpTo(m, k) ==> t.e1 in m.index[..k]
  {
    if k > 0 {
      DistinctLabelsDistinctKeys(m, k - 1);
      var prev, row := PairsUpTo(m, k - 1), RowPairs(m, k - 1);
      var ts := prev + row;
      forall p, q | 0 <= p < q < |ts|
        ensures ts[p].e1 != ts[q].e1 || ts[p].e2 != ts[q].e2
      {
        if q >= |prev| {
          if p >= |prev| {
            assert ts[p].e2 == m.index[p - |prev|] && ts[q].e2 == m.index[q - |prev|];
          } else {
            assert ts[p] in prev;
            assert ts[p].e1 in m.index[..k - 1];
            assert ts[q].e1 == m.index[k - 1];
          }
        }
      }
      forall t | t in ts
        ensures t.e1 in m.index[..k]
      {
        if t in prev {
          assert m.index[..k - 1] <= m.index[..k];
        } else {
          assert t.e1 == m.index[k - 1];
        }
      }
    }
  }

  /** Both pivot axes are the sorted index labels. */
  lemma PivotAxes(m: Frame)
    requires Rectangular(m)
    ensures SortedDistinct(FirstKeys(AllPairs(m))) == SortedDistinct(m.index)
    ensures SortedDistinct(SecondKeys(AllPairs(m))) == SortedDistinct(m.index)
  {
    var n := |m.index|;
    var ts := AllPairs(m);
    PairsUpToKeys(m, n);
    var e1s, e2s := FirstKeys(ts), SecondKeys(ts);
    forall c
      ensures c in e1s <==> c in m.index
      ensures c in e2s <==> c in m.index
    {
      if c in e1s || c in e2s {
        var p :| 0 <= p < |ts| && (e1s[p] == c || e2s[p] == c);
        assert ts[p] in ts;
      }
      if c in m.index {
        var i :| 0 <= i < n && m.index[i] == c;
        PairsUpToComplete(m, n, i, 0);
        PairsUpToComplete(m, n, 0, i);
        var p1 :| 0 <= p1 < |ts| && ts[p1] == Triple(c, m.index[0], PairDistance(m, i, 0));
        var p2 :| 0 <= p2 < |ts| && ts[p2] == Triple(m.index[0], c, PairDistance(m, 0, i));
        assert e1s[p1] == c && e2s[p2] == c;
      }
    }
    SortedUnique(SortedDistinct(e1s), SortedDistinct(m.index));
    SortedUnique(SortedDistinct(e2s), SortedDistinct(m.index));
  }

  /** The pivot finds, for two labels, the distance of the rows they name. */
  lemma PivotValue(m: Frame, x: Cell, y: Cell)
    requires Rectangular(m) && Distinct(m.index) && x in m.index && y in m.index
    ensures ValueAt(AllPairs(m), x, y) == PairDistance(m, Position(m.index, x), Position(m.index, y))
  {
    var ts := AllPairs(m);
    var i, j := Position(m.index, x), Position(m.index, y);
    DistinctLabelsDistinctKeys(m, |m.index|);
    PairsUpToComplete(m, |m.index|, i, j);
    var p :| 0 <= p < |ts| && ts[p] == Triple(x, y, PairDistance(m, i, j));
    ValueAtUnique(ts, p);
  }

  /** The pivot of the recorded triples: refused on repeated labels, sorted by label otherwise. */
  lemma PivotOfRecordedPairs(m: Frame)
    requires Rectangular(m)
    ensures Pivot(AllPairs(m)) ==
            if Distinct(m.index) then Success(SortedDistanceMatrix(m)) else Failure(DuplicatePivotEntries)
  {
    if !Distinct(m.index) {
      RepeatedLabelRepeatsKeys(m);
    } else {
      var ts := AllPairs(m);
      DistinctLabelsDistinctKeys(m, |m.index|);
      PivotAxes(m);
      var keys := SortedDistinct(m.index);
      var pivoted := Pivot(ts).value;
      var expected := SortedDistanceMatrix(m);
      assert |pivoted| == |keys| == |expected|;
      forall a | 0 <= a < |keys|
        ensures pivoted[a] == expected[a]
      {
        forall b | 0 <= b < |keys|
          ensures pivoted[a][b] == expected[a][b]
        {
          PivotValue(m, keys[a], keys[b]);
        }
      }
      assert pivoted == expected;
      assert Pivot(ts) == Success(pivoted);
    }
  }

  /**
   * `jaccard_loop` as written: the nested loop, naming the columns of the
   * recorded triples, then the pivot.  It refuses an empty index (nothing to
   * name) and an index with a repeated label, and otherwise orders rows and
   * columns by sorted label rather than by position.
   */
  method JaccardLoopAsWritten(m: Frame) returns (r: Result<seq<seq<real>>, PivotError>)
    requires Rectangular(m)
    ensures r.Failure? <==> |m.index| == 0 || !Distinct(m.index)
    ensures r.Failure? ==> (r.error == NoTriples <==> |m.index| == 0)
    ensures r.Success? ==> r.value == SortedDistanceMatrix(m)
  {
    var ts := RecordDistances(m);
    PairsUpToLength(m, |m.index|);
    assert (ts == []) == (|m.index| == 0);
    if ts == [] {
      r := Failure(NoTriples);
    } else {
      r := Pivot(ts);
      PivotOfRecordedPairs(m);
    }
  }

  /**
   * On a duplicate-free index the as-written result is N x N, symmetric, zero
   * on the diagonal and within [0, 1]: the same shape as the positional matrix.
   */
  lemma SortedDistanceMatrixProperties(m: Frame)
    requires Rectangular(m) && Distinct(m.index)
    ensures |SortedDistanceMatrix(m)| == |m.index| && Square(SortedDistanceMatrix(m))
    ensures forall a, b :: 0 <= a < |m.index| && 0 <= b < |m.index| ==>
              SortedDistanceMatrix(m)[a][b] == SortedDistanceMatrix(m)[b][a] &&
              0.0 <= SortedDistanceMatrix(m)[a][b] <= 1.0
    ensures forall a :: 0 <= a < |m.index| ==> SortedDistanceMatrix(m)[a][a] == 0.0
  {
    var keys := SortedDistinct(m.index);
    SortedIsDistinct(keys);
    assert Elements(keys) == Elements(m.index);
    DistinctCard(keys);
    DistinctCard(m.index);
    var d := SortedDistanceMatrix(m);
    forall a, b | 0 <= a < |keys| && 0 <= b < |keys|
      ensures d[a][b] == d[b][a] && 0.0 <= d[a][b] <= 1.0
    {
      var ra, rb := Members(m.values[Position(m.index, keys[a])]), Members(m.values[Position(m.index, keys[b])]);
      DistanceSymmetric(ra, rb);
      DistanceBounds(ra, rb);
    }
    forall a | 0 <= a < |keys|
      ensures d[a][a] == 0.0
    {
      DistanceToSelf(Members(m.values[Position(m.index, keys[a])]));
    }
  }

  /** When the index is already sorted, the pivot does not reorder anything. */
  lemma SortedIndexLoopAgrees(m: Frame)
    requires Rectangular(m) && Sorted(m.index)
    ensures SortedDistanceMatrix(m) == DistanceMatrix(m)
  {
    SortedDistinctOfSorted(m.index);
    SortedIsDistinct(m.index);
    forall a | 0 <= a < |m.index|
      ensures Position(m.index, m.index[a]) == a
    {
      var i := Position(m.index, m.index[a]);
      assert m.index[i] == m.index[a];
    }
    assert forall a :: 0 <= a < |m.index| ==> SortedDistanceMatrix(m)[a] == DistanceMatrix(m)[a];
  }

  /** Long input comes out of its own pivot sorted, so the as-written loop keeps its order. */
  lemma LongInputLoopAgrees(t: Frame)
    requires Rectangular(t) && InputParser.BinarizeLong(t).Success?
    ensures Rectangular(InputParser.BinarizeLong(t).value)
    ensures SortedDistanceMatrix(InputParser.BinarizeLong(t).value) == DistanceMatrix(InputParser.BinarizeLong(t).value)
  {
    SortedIndexLoopAgrees(InputParser.BinarizeLong(t).value);
  }

  /**
   * `calculate_jaccard` as written: the "loop" approach runs the as-written
   * loop, so it fails on an empty index or a repeated label and lays its
   * matrix out by sorted label; the other approaches give what `CalculateJaccard` gives.
   */
  method CalculateJaccardAsWritten(m: Frame, approach: string := "scikit", convertSimilarity: bool := false)
    returns (r: Result<JaccardOutput, PivotError>)
    requires Rectangular(m)
    ensures ApproachNamed(approach) != Loop ==>
      r.Success? &&
      (!convertSimilarity ==> r.value == Distances(DistanceMatrix(m))) &&
      (convertSimilarity ==>
        DistToSim(DistanceMatrix(m), None).Success? &&
        r.value == Similarities(DistToSim(DistanceMatrix(m), None).value))
    ensures ApproachNamed(approach) == Loop ==> (r.Failure? <==> |m.index| == 0 || !Distinct(m.index))
    ensures ApproachNamed(approach) == Loop && r.Success? ==>
      (!convertSimilarity ==> r.value == Distances(SortedDistanceMatrix(m))) &&
      (convertSimilarity ==>
        DistToSim(SortedDistanceMatrix(m), None).Success? &&
        r.value == Similarities(DistToSim(SortedDistanceMatrix(m), None).value))
  {
    if ApproachNamed(approach) == Loop {
      var d := JaccardLoopAsWritten(m);
      if d.Failure? {
        r := Failure(d.error);
      } else if convertSimilarity {
        var s := DistToSim(d.value);
        r := Success(Similarities(s.value));
      } else {
        r := Success(Distances(d.value));
      }
    } else {
      var out := CalculateJaccard(m, approach, convertSimilarity);
      r := Success(out);
    }
  }

  /** A table whose entities are not in sorted order: c, a, b. */
  function UnsortedExample(): Frame {
    Frame([Text("c"), Text("a"), Text("b")], [Text("x"), Text("y"), Text("z")],
          [[Num(1), Num(0), Num(0)],
           [Num(1), Num(1), Num(0)],
           [Num(0), Num(0), Num(1)]])
  }

  /**
   * The as-written loop disagrees with the other strategies on an unsorted
   * index: its row 0 is entity "a" and its column 1 entity "b" (distance 1),
   * where theirs are "c" and "a" (distance 1/2).
   */
  lemma LoopPivotReordersRows()
    ensures Rectangular(UnsortedExample()) && Distinct(UnsortedExample().index)
    ensures SortedDistanceMatrix(UnsortedExample())[0][1] == 1.0
    ensures DistanceMatrix(UnsortedExample())[0][1] == 0.5
  {
    var m := UnsortedExample();
    ExampleAxis();
    assert Position(m.index, Text("a")) == 1;
    assert Position(m.index, Text("b")) == 2;
    ExampleDistances();
  }

  /** Rows c and a share one of two categories; rows a and b share none. */
  lemma ExampleDistances()
    ensures Rectangular(UnsortedExample())
    ensures PairDistance(UnsortedExample(), 0, 1) == 0.5
    ensures PairDistance(UnsortedExample(), 1, 2) == 1.0
  {
    ExampleMembers();
    assert {0} * {0, 1} == {0} && {0} + {0, 1} == {0, 1} && |{0, 1}| == 2;
    assert {0, 1} * {2} == {} && {0, 1} + {2} == {0, 1, 2} && |{0, 1, 2}| == 3;
  }

  /** The pivot axis of the example: its labels sorted. */
  lemma ExampleAxis()
    ensures SortedDistinct(UnsortedExample().index) == [Text("a"), Text("b"), Text("c")]
  {
    var sorted := [Text("a"), Text("b"), Text("c")];
    assert Less(Text("a"), Text("b")) && Less(Text("b"), Text("c")) && Less(Text("a"), Text("c"));
    SortedUnique(SortedDistinct(UnsortedExample().index), sorted);
  }

  /** The categories each row of the example holds. */
  lemma ExampleMembers()
    ensures Members(UnsortedExample().values[0]) == {0}
    ensures Members(UnsortedExample().values[1]) == {0, 1}
    ensures Members(UnsortedExample().values[2]) == {2}
  {
  }

  // ---------------------------------------------------------------------------
  // `dist_to_sim` as written: a label "Entity" collides with the index column
  // ---------------------------------------------------------------------------

  /**
   * `dist_to_sim` as written.  The labels become the column names; then a
   * column "Entity" holding the labels is assigned and made the index.  If a
   * label is itself "Entity", the assignment overwrites that entity's column,
   * which the index then consumes: the result lacks that column.
   */
  function DistToSimAsWritten(d: seq<seq<real>>, labels: Option<seq<string>>): (r: Result<SimFrame, SimError>)
    requires Grid(d) && Count(LabelsFor(d, labels), "Entity") <= 1
    ensures "Entity" !in LabelsFor(d, labels) ==> r == DistToSim(d, labels)
    ensures r.Success? <==> DistToSim(d, labels).Success?
    ensures r.Failure? ==> r.error == DistToSim(d, labels).error
    ensures r.Success? ==> r.value.index == LabelsFor(d, labels) && |r.value.values| == |d|
    ensures r.Success? && "Entity" in LabelsFor(d, labels) ==>
      var p := Position(LabelsFor(d, labels), "Entity");
      r.value.columns == RemoveAt(LabelsFor(d, labels), p) &&
      forall i :: 0 <= i < |d| ==> r.value.values[i] == RemoveAt(DistToSim(d, labels).value.values[i], p)
  {
    var n := Width(d);
    var names := LabelsFor(d, labels);
    if |names| != n then Failure(LabelCountMismatch)
    else if |d| != n then Failure(RowCountMismatch)
    else
      var full := seq(n, i requires 0 <= i < n => seq(n, j requires 0 <= j < n => 1.0 - d[i][j]));
      if "Entity" in names then
        var p := Position(names, "Entity");
        Success(SimFrame(names, RemoveAt(names, p), seq(n, i requires 0 <= i < n => RemoveAt(full[i], p))))
      else
        Success(SimFrame(names, names, full))
  }

  /** With invented labels the as-written function always agrees with the intended one. */
  lemma DistToSimAgreesWithoutLabels(d: seq<seq<real>>)
    requires Grid(d)
    ensures Count(LabelsFor(d, None), "Entity") == 0
    ensures DistToSimAsWritten(d, None) == DistToSim(d, None)
  {
    DefaultLabelsDistinct(Width(d));
    CountZero(LabelsFor(d, None), "Entity");
  }

  /** Two entities named "Entity" and "x": the as-written result keeps only the column "x". */
  lemma EntityLabelLosesColumn()
    ensures Grid([[0.0, 1.0], [1.0, 0.0]]) && Count(["Entity", "x"], "Entity") == 1
    ensures DistToSimAsWritten([[0.0, 1.0], [1.0, 0.0]], Some(["Entity", "x"])).value.columns == ["x"]
    ensures DistToSim([[0.0, 1.0], [1.0, 0.0]], Some(["Entity", "x"])).value.columns == ["Entity", "x"]
  {
    var d := [[0.0, 1.0], [1.0, 0.0]];
    assert Width(d) == 2;
    assert "Entity" != "x";
    assert Position(["Entity", "x"], "Entity") == 0;
  }
}
