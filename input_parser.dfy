/**
 * Reading input into a binarized matrix: one row per entity, one column per
 * category, 1 where the entity carries the category and 0 where it does not.
 * Three encodings are accepted: pseudo-tabular (one column per entity, holding
 * its labels, padded with missing cells), long ((entity, label) rows) and an
 * already binarized table.  Reading the CSV file itself is not modelled: the
 * operations start from the table `read_csv` produced.
 */
module InputParser {
  import opened Wrappers
  import opened Frames
  import opened CellOrder

  /** What pandas raises while reshaping long input. */
  datatype ParseError =
    | ColumnCountMismatch  // fewer than two columns: naming them "Entity" and "Label" fails
    | DuplicateEntries     // an (entity, label) pair occurs twice: the pivot refuses it

  // ---------------------------------------------------------------------------
  // Pseudo-tabular input
  // ---------------------------------------------------------------------------

  /** The non-missing cells of a column, in order (`dropna().tolist()`). */
  function DropMissing(cells: seq<Cell>): (labels: seq<Cell>)
    ensures forall c :: c in labels <==> c in cells && c != NA
    ensures labels == [] <==> forall i :: 0 <= i < |cells| ==> cells[i] == NA
    ensures |labels| <= |cells|
  {
    if cells == [] then []
    else
      assert forall c :: c in cells <==> c == cells[0] || c in cells[1..] by {
        assert cells == [cells[0]] + cells[1..];
      }
      var rest := DropMissing(cells[1..]);
      if cells[0] == NA then
        assert forall i :: 0 < i < |cells| ==> cells[i] == cells[1..][i - 1];
        rest
      else
        [cells[0]] + rest
  }

  /** The label list of the entity in column `k`. */
  function EntityLabels(t: Frame, k: nat): seq<Cell>
    requires Rectangular(t) && k < |t.columns|
  {
    DropMissing(Column(t, k))
  }

  /** The label lists of all entities, in column order: the dictionary `d`. */
  function LabelLists(t: Frame): seq<seq<Cell>>
    requires Rectangular(t)
  {
    seq(|t.columns|, k requires 0 <= k < |t.columns| => EntityLabels(t, k))
  }

  /** `e` is a category: a label of at least one entity. */
  ghost predicate IsCategory(t: Frame, e: Cell)
    requires Rectangular(t)
  {
    exists k :: 0 <= k < |t.columns| && e in EntityLabels(t, k)
  }

  /** `cats` lists every category exactly once, in some order. */
  ghost predicate EnumeratesCategories(t: Frame, cats: seq<Cell>)
    requires Rectangular(t)
  {
    Distinct(cats) && forall e :: e in cats <==> IsCategory(t, e)
  }

  /** The indicator row of one entity over the category axis. */
  function OneHot(labels: seq<Cell>, cats: seq<Cell>): seq<Cell> {
    seq(|cats|, j requires 0 <= j < |cats| => if cats[j] in labels then Num(1) else Num(0))
  }

  /**
   * The binarized matrix over the category axis `cats`: entities (the input's
   * columns) become rows, categories become columns.
   */
  function Binarize(t: Frame, cats: seq<Cell>): Frame
    requires Rectangular(t)
  {
    Frame(t.columns, cats,
          seq(|t.columns|, k requires 0 <= k < |t.columns| => OneHot(EntityLabels(t, k), cats)))
  }

  /** Row `k` read back: the categories whose entry is 1. */
  function RowLabels(f: Frame, k: nat): set<Cell>
    requires Rectangular(f) && k < |f.index|
  {
    set j | 0 <= j < |f.columns| && f.values[k][j] == Num(1) :: f.columns[j]
  }

  /** The non-missing labels of input column `k`, as a set. */
  function LabelSet(t: Frame, k: nat): set<Cell>
    requires Rectangular(t) && k < |t.columns|
  {
    set c | c in Column(t, k) && c != NA
  }

  /** The union of all label lists, grown one entity at a time. */
  method CollectCategories(d: seq<seq<Cell>>) returns (items: set<Cell>)
    ensures forall e :: e in items <==> exists k :: 0 <= k < |d| && e in d[k]
  {
    items := {};
    for k := 0 to |d|
      invariant forall e :: e in items <==> exists i :: 0 <= i < k && e in d[i]
    {
      items := items + set e | e in d[k];
    }
  }

  /** Lists a set in whatever order iteration yields (`list(all_items)`). */
  method ListSet(items: set<Cell>) returns (cats: seq<Cell>)
    ensures Distinct(cats)
    ensures forall e :: e in cats <==> e in items
  {
    cats := [];
    var rest := items;
    while rest != {}
      invariant Distinct(cats)
      invariant forall e :: e in items <==> e in rest || e in cats
      invariant forall e :: e in rest ==> e !in cats
      decreases rest
    {
      var e :| e in rest;
      cats := cats + [e];
      rest := rest - {e};
    }
  }

  /**
   * `binarize_tabular`: drops missing cells, collects the categories, lists
   * them in set-iteration order and one-hot encodes every entity.
   */
  method BinarizeTabular(t: Frame) returns (r: Frame)
    requires Rectangular(t)
    ensures EnumeratesCategories(t, r.columns)
    ensures r == Binarize(t, r.columns)
  {
    var d := LabelLists(t);
    var items := CollectCategories(d);
    var cats := ListSet(items);
    var rows: seq<seq<Cell>> := [];
    for k := 0 to |d|
      invariant |rows| == k
      invariant forall i :: 0 <= i < k ==> rows[i] == OneHot(d[i], cats)
    {
      rows := rows + [OneHot(d[k], cats)];
    }
    r := Frame(t.columns, cats, rows);
    assert forall e :: e in cats <==> IsCategory(t, e) by {
      forall e
        ensures e in cats <==> IsCategory(t, e)
      {
        if e in cats {
          var k :| 0 <= k < |d| && e in d[k];
          assert e in EntityLabels(t, k);
        }
        if IsCategory(t, e) {
          var k :| 0 <= k < |t.columns| && e in EntityLabels(t, k);
          assert e in d[k];
        }
      }
    }
  }

  /**
   * The binarization round trip: every entry is 0 or 1, and row `k` read back
   * is exactly the set of non-missing labels in input column `k`.
   */
  lemma TabularRoundTrip(t: Frame, cats: seq<Cell>, k: nat)
    requires Rectangular(t) && EnumeratesCategories(t, cats) && k < |t.columns|
    ensures Rectangular(Binarize(t, cats)) && Binarize(t, cats).index == t.columns
    ensures forall j :: 0 <= j < |cats| ==> Binarize(t, cats).values[k][j] in {Num(0), Num(1)}
    ensures RowLabels(Binarize(t, cats), k) == LabelSet(t, k)
  {
    var r := Binarize(t, cats);
    var labels := EntityLabels(t, k);
    forall c | c in Column(t, k) && c != NA
      ensures c in RowLabels(r, k)
    {
      assert c in labels;
      assert IsCategory(t, c);
      var j :| 0 <= j < |cats| && cats[j] == c;
      assert r.values[k][j] == Num(1);
    }
  }

  /** Every category column holds at least one 1. */
  lemma EveryCategoryObserved(t: Frame, cats: seq<Cell>, j: nat)
    requires Rectangular(t) && EnumeratesCategories(t, cats) && j < |cats|
    ensures exists k :: 0 <= k < |t.columns| && Binarize(t, cats).values[k][j] == Num(1)
  {
    assert cats[j] in cats;
    var k :| 0 <= k < |t.columns| && cats[j] in EntityLabels(t, k);
    assert Binarize(t, cats).values[k][j] == Num(1);
  }

  /** An entity whose column is all missing has an all-zero row. */
  lemma MissingColumnGivesZeroRow(t: Frame, cats: seq<Cell>, k: nat)
    requires Rectangular(t) && k < |t.columns|
    requires forall i :: 0 <= i < |t.values| ==> t.values[i][k] == NA
    ensures forall j :: 0 <= j < |cats| ==> Binarize(t, cats).values[k][j] == Num(0)
  {
    assert EntityLabels(t, k) == [];
  }

  // ---------------------------------------------------------------------------
  // `binarize_tabular` as written: the "Categories" column clash
  // ---------------------------------------------------------------------------

  /** The column name under which the category axis is stored before becoming the index. */
  const CategoriesHeader: Cell := Text("Categories")

  /** The (label, row) pairs of a table, one per position. */
  function LabelledRows(index: seq<Cell>, rows: seq<seq<Cell>>): set<(Cell, seq<Cell>)> {
    set i | 0 <= i < |index| && i < |rows| :: (index[i], rows[i])
  }

  /** The rows whose label is not `name`, in their original order. */
  function DropEntity(index: seq<Cell>, rows: seq<seq<Cell>>, name: Cell): (r: (seq<Cell>, seq<seq<Cell>>))
    requires |index| == |rows|
    ensures |r.0| == |r.1|
    ensures name !in r.0
    ensures forall row :: row in r.1 ==> row in rows
    ensures name !in index ==> r == (index, rows)
  {
    if index == [] then ([], [])
    else
      assert index == [index[0]] + index[1..] && rows == [rows[0]] + rows[1..];
      var rest := DropEntity(index[1..], rows[1..], name);
      if index[0] == name then rest
      else ([index[0]] + rest.0, [rows[0]] + rest.1)
  }

  /** The pairs of a table with one more row in front. */
  lemma LabelledRowsCons(x: Cell, row: seq<Cell>, index: seq<Cell>, rows: seq<seq<Cell>>)
    requires |index| == |rows|
    ensures LabelledRows([x] + index, [row] + rows) == {(x, row)} + LabelledRows(index, rows)
  {
    var whole, tail := LabelledRows([x] + index, [row] + rows), LabelledRows(index, rows);
    forall p | p in whole
      ensures p == (x, row) || p in tail
    {
      var i :| 0 <= i < |index| + 1 && p == (([x] + index)[i], ([row] + rows)[i]);
      if i > 0 {
        assert p == (index[i - 1], rows[i - 1]);
      }
    }
    forall p | p in tail
      ensures p in whole
    {
      var i :| 0 <= i < |index| && i < |rows| && p == (index[i], rows[i]);
      assert p == (([x] + index)[i + 1], ([row] + rows)[i + 1]);
    }
    assert (x, row) == (([x] + index)[0], ([row] + rows)[0]);
  }

  /** Dropping keeps every (label, row) pair except those labelled `name`. */
  lemma {:induction false} DropEntityPairs(index: seq<Cell>, rows: seq<seq<Cell>>, name: Cell)
    requires |index| == |rows|
    ensures LabelledRows(DropEntity(index, rows, name).0, DropEntity(index, rows, name).1) ==
            set p | p in LabelledRows(index, rows) && p.0 != name
  {
    if index != [] {
      var rest := DropEntity(index[1..], rows[1..], name);
      DropEntityPairs(index[1..], rows[1..], name);
      assert index == [index[0]] + index[1..] && rows == [rows[0]] + rows[1..];
      LabelledRowsCons(index[0], rows[0], index[1..], rows[1..]);
      if index[0] != name {
        LabelledRowsCons(index[0], rows[0], rest.0, rest.1);
      }
    }
  }

  /** Dropping a label that occurs once removes exactly its position, keeping the order of the rest. */
  lemma {:induction false} DropEntityOnce(index: seq<Cell>, rows: seq<seq<Cell>>, name: Cell)
    requires |index| == |rows| && Count(index, name) == 1
    ensures name in index
    ensures DropEntity(index, rows, name) ==
            (RemoveAt(index, Position(index, name)), RemoveAt(rows, Position(index, name)))
  {
    CountZero(index, name);
    assert index == [index[0]] + index[1..] && rows == [rows[0]] + rows[1..];
    if index[0] == name {
      CountZero(index[1..], name);
      assert Position(index, name) == 0;
      assert RemoveAt(index, 0) == index[1..] && RemoveAt(rows, 0) == rows[1..];
    } else {
      DropEntityOnce(index[1..], rows[1..], name);
      var p := Position(index[1..], name);
      assert Position(index, name) == p + 1;
      assert RemoveAt(index, p + 1) == [index[0]] + RemoveAt(index[1..], p);
      assert RemoveAt(rows, p + 1) == [rows[0]] + RemoveAt(rows[1..], p);
    }
  }

  /**
   * The frame `binarize_tabular` returns as written.  The one-hot list of an
   * entity whose header is "Categories" is stored under that key, replaced by
   * the category axis and consumed by `set_index`: that entity has no row,
   * although its labels stay on the category axis.
   */
  function BinarizeAsWritten(t: Frame, cats: seq<Cell>): (r: Frame)
    requires Rectangular(t)
    ensures r.columns == cats && Rectangular(r)
    ensures CategoriesHeader !in r.index
    ensures CategoriesHeader !in t.columns ==> r == Binarize(t, cats)
    ensures Count(t.columns, CategoriesHeader) == 1 ==>
      CategoriesHeader in t.columns &&
      r.index == RemoveAt(t.columns, Position(t.columns, CategoriesHeader)) &&
      r.values == RemoveAt(Binarize(t, cats).values, Position(t.columns, CategoriesHeader))
    ensures LabelledRows(r.index, r.values) ==
            set p | p in LabelledRows(t.columns, Binarize(t, cats).values) && p.0 != CategoriesHeader
  {
    var b := Binarize(t, cats);
    var kept := DropEntity(b.index, b.values, CategoriesHeader);
    DropEntityPairs(b.index, b.values, CategoriesHeader);
    assert Count(b.index, CategoriesHeader) == 1 ==>
      CategoriesHeader in b.index &&
      kept == (RemoveAt(b.index, Position(b.index, CategoriesHeader)),
               RemoveAt(b.values, Position(b.index, CategoriesHeader))) by {
      if Count(b.index, CategoriesHeader) == 1 {
        DropEntityOnce(b.index, b.values, CategoriesHeader);
      }
    }
    assert forall i :: 0 <= i < |kept.1| ==> kept.1[i] in b.values;
    Frame(kept.0, cats, kept.1)
  }

  /** `binarize_tabular` as written: the intended matrix, minus a "Categories" entity. */
  method BinarizeTabularAsWritten(t: Frame) returns (r: Frame)
    requires Rectangular(t)
    ensures EnumeratesCategories(t, r.columns)
    ensures r == BinarizeAsWritten(t, r.columns)
  {
    var b := BinarizeTabular(t);
    r := BinarizeAsWritten(t, b.columns);
  }

  /** Two entities, the first headed "Categories": labels x and y. */
  function CategoriesExample(): Frame {
    Frame([Num(0)], [CategoriesHeader, Text("b")], [[Text("x"), Text("y")]])
  }

  /**
   * On that table the as-written function keeps only entity "b", and the
   * category x, carried only by the lost entity, has an all-zero column.
   */
  lemma CategoriesEntityDropped(cats: seq<Cell>)
    requires Rectangular(CategoriesExample()) && EnumeratesCategories(CategoriesExample(), cats)
    ensures |Binarize(CategoriesExample(), cats).index| == 2
    ensures BinarizeAsWritten(CategoriesExample(), cats).index == [Text("b")]
    ensures Text("x") in cats
    ensures BinarizeAsWritten(CategoriesExample(), cats).values[0][Position(cats, Text("x"))] == Num(0)
  {
    var t := CategoriesExample();
    assert Column(t, 0) == [Text("x")] && Column(t, 1) == [Text("y")];
    assert EntityLabels(t, 0) == [Text("x")];
    assert EntityLabels(t, 1) == [Text("y")];
    assert IsCategory(t, Text("x"));
    var b := Binarize(t, cats);
    assert b.index == [CategoriesHeader, Text("b")] && |b.values| == 2;
    var tail, rows := b.index[1..], b.values[1..];
    assert tail == [Text("b")] && rows == [b.values[1]];
    assert DropEntity(tail[1..], rows[1..], CategoriesHeader) == ([], []);
    assert DropEntity(tail, rows, CategoriesHeader) == ([Text("b")], [b.values[1]]);
    assert DropEntity(b.index, b.values, CategoriesHeader) == ([Text("b")], [b.values[1]]);
  }

  // ---------------------------------------------------------------------------
  // Long input
  // ---------------------------------------------------------------------------

  /** The (entity, label) pair of every row, from the first two columns. */
  function Pairs(t: Frame): seq<(Cell, Cell)>
    requires Rectangular(t) && |t.columns| >= 2
  {
    seq(|t.values|, i requires 0 <= i < |t.values| => (t.values[i][0], t.values[i][1]))
  }

  /** The labels paired with entity `e` in long input. */
  function PairedLabels(t: Frame, e: Cell): set<Cell>
    requires Rectangular(t) && |t.columns| >= 2
  {
    set p | p in Pairs(t) && p.0 == e :: p.1
  }

  /**
   * `binarize_long`: pivots the first two columns; the pivot's axes are the
   * distinct entities and the distinct labels, each sorted, and missing
   * combinations are filled with 0.
   */
  function BinarizeLong(t: Frame): (r: Result<Frame, ParseError>)
    requires Rectangular(t)
    ensures r.Failure? <==> |t.columns| < 2 || !Distinct(Pairs(t))
    ensures r.Failure? ==> (r.error == ColumnCountMismatch <==> |t.columns| < 2)
    ensures r.Success? ==>
      Rectangular(r.value) && Sorted(r.value.index) && Sorted(r.value.columns) &&
      (forall e :: e in r.value.index <==> e in Column(t, 0)) &&
      (forall l :: l in r.value.columns <==> l in Column(t, 1))
  {
    if |t.columns| < 2 then Failure(ColumnCountMismatch)
    else if !Distinct(Pairs(t)) then Failure(DuplicateEntries)
    else
      var pairs := Pairs(t);
      var entities := SortedDistinct(Column(t, 0));
      var labels := SortedDistinct(Column(t, 1));
      Success(Frame(entities, labels,
                    seq(|entities|, i requires 0 <= i < |entities| =>
                      seq(|labels|, j requires 0 <= j < |labels| =>
                        if (entities[i], labels[j]) in pairs then Num(1) else Num(0)))))
  }

  /**
   * The long-format round trip: every entry is 0 or 1, and row `i` read back
   * is exactly the set of labels paired with that entity in the input.
   */
  lemma LongRoundTrip(t: Frame, i: nat)
    requires Rectangular(t) && BinarizeLong(t).Success? && i < |BinarizeLong(t).value.index|
    ensures forall j :: 0 <= j < |BinarizeLong(t).value.columns| ==>
              BinarizeLong(t).value.values[i][j] in {Num(0), Num(1)}
    ensures RowLabels(BinarizeLong(t).value, i) == PairedLabels(t, BinarizeLong(t).value.index[i])
  {
    var r := BinarizeLong(t).value;
    var e := r.index[i];
    forall pr | pr in Pairs(t) && pr.0 == e
      ensures pr.1 in RowLabels(r, i)
    {
      var l := pr.1;
      var p :| 0 <= p < |Pairs(t)| && Pairs(t)[p] == pr;
      assert Column(t, 1)[p] == l && l in Column(t, 1);
      assert l in r.columns;
      var j :| 0 <= j < |r.columns| && r.columns[j] == l;
      assert r.values[i][j] == Num(1);
    }
  }

  // ---------------------------------------------------------------------------
  // Dispatch on the format
  // ---------------------------------------------------------------------------

  /**
   * `read_input` after the CSV has been read into `t`: "binary" passes the
   * table through, "pseudo_tab" and "long" binarize it, and any other format
   * gives `None`.
   */
  method ReadInput(t: Frame, format: string := "pseudo_tab") returns (r: Result<Option<Frame>, ParseError>)
    requires Rectangular(t)
    ensures format == "binary" ==> r == Success(Some(t))
    ensures format == "pseudo_tab" ==>
      r.Success? && r.value.Some? &&
      EnumeratesCategories(t, r.value.value.columns) && r.value.value == Binarize(t, r.value.value.columns)
    ensures format == "long" ==>
      (r.Success? <==> BinarizeLong(t).Success?) &&
      (r.Success? ==> r.value == Some(BinarizeLong(t).value)) &&
      (r.Failure? ==> r.error == BinarizeLong(t).error)
    ensures format !in {"binary", "pseudo_tab", "long"} ==> r == Success(None)
  {
    if format == "binary" {
      r := Success(Some(t));
    } else if format in ["pseudo_tab", "long"] {
      if format == "pseudo_tab" {
        var m := BinarizeTabular(t);
        r := Success(Some(m));
      } else {
        match BinarizeLong(t)
        case Success(m) => r := Success(Some(m));
        case Failure(e) => r := Failure(e);
      }
    } else {
      r := Success(None);
    }
  }
}
