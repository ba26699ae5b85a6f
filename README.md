# Jaccard distance matrices over categorical labels — a verified model

The modelled scripts describe each entity by a set of categorical labels.
They turn an input table into a 0/1 membership matrix (entities × categories),
compute the Jaccard distance between every pair of entities (the categories only one of them holds, over the categories either holds),
and optionally turn the distance matrix into a labelled similarity matrix.
This project models that core in Dafny and proves its properties.

- `wrappers.dfy` (`Wrappers`): `Option` and `Result`. They stand for Python's `None` and for the exceptions the code raises.
- `frames.dfy` (`Frames`): a table as pandas holds it. A `Frame` has a row index, column labels and a grid of cells. A cell is a number, a text or missing (`NA`).
- `cell_order.dfy` (`CellOrder`): the order pandas' `pivot` puts its axes in (numbers, then texts by code point, missing last). It also has `SortedDistinct`, the sorted axis of distinct keys.
- `input_parser.dfy` (`InputParser`): `binarize_tabular` as a method with the source's loops, `binarize_long` as a function, and the format dispatch of `read_input`. It also holds the as-written model behind the third finding below.
- `jaccard_spec.dfy` (`JaccardSpec`): the Jaccard distance of two finite sets in exact `real` arithmetic, written as scipy computes it, (|A−B| + |B−A|)/|A∪B|. It is proved equal to 1 minus the Jaccard index |A∩B|/|A∪B|, and its algebra is proved too.
- `calculate_jaccard.dfy` (`CalculateJaccard`): the distance matrix, the three strategies, `dist_to_sim` and the `calculate_jaccard` router. It also holds the as-written models behind the first two findings below, and the router as written.

Conventions:
- A cell counts as present in a row when it is not the number 0. This is numpy's boolean reading of a cell.
- Two empty rows are at distance 0. This is scipy's value for two all-zero vectors, and it matches the zero diagonal that the pandas strategy forces.
- `read_input` starts from the table `read_csv` returned, so `ReadInput` takes that table as a parameter.
- Pseudo-tabular categories come out in set-iteration order. `BinarizeTabular` therefore promises the same result for any duplicate-free listing of the categories.

## Model

| member | source | states |
|---|---|---|
| `InputParser.DropMissing` | scripts/similarity_utils/input_parser.py:48-49 | An entity's label list holds exactly the non-missing cells of its column. It is empty exactly when every cell is missing. |
| `InputParser.CollectCategories` | scripts/similarity_utils/input_parser.py:53-55 | The loop's accumulated set is exactly the union of all label lists. |
| `InputParser.ListSet` | scripts/similarity_utils/input_parser.py:56 | Listing the category set gives each category exactly once, in any order. |
| `InputParser.BinarizeTabular` | scripts/similarity_utils/input_parser.py:34-66 | The result lists every category exactly once. Its rows are the input columns (entities) one-hot encoded over that category axis. This is the corrected form: an entity headed "Categories" keeps its row (third finding). |
| `InputParser.BinarizeAsWritten` | scripts/similarity_utils/input_parser.py:59-64 | The matrix as lines 61-64 build it. No row is labelled "Categories"; every other (entity, row) pair of the intended matrix is kept, and no new one appears. With exactly one such header, the result is the intended matrix with that one position removed, the other rows staying in header order. Without such a header it equals the intended matrix. |
| `InputParser.BinarizeTabularAsWritten` | scripts/similarity_utils/input_parser.py:34-66 | `binarize_tabular` as written: the category axis lists every category once, and the rows are the as-written matrix over it. |
| `InputParser.CategoriesEntityDropped` | scripts/similarity_utils/input_parser.py:61-64 | For headers "Categories" and "b" over labels x and y, the as-written result has only row "b". Category x stays on the axis, with 0 in that row. |
| `InputParser.TabularRoundTrip` | scripts/similarity_utils/input_parser.py:59-64 | Rows are the input's columns and every entry is 0 or 1. Reading row k's 1-columns gives back the set of non-missing labels of column k. |
| `InputParser.EveryCategoryObserved` | scripts/similarity_utils/input_parser.py:53-61 | Every category column of the tabular output holds at least one 1. |
| `InputParser.MissingColumnGivesZeroRow` | scripts/similarity_utils/input_parser.py:48-61 | An all-missing column becomes an all-zero row. |
| `InputParser.BinarizeLong` | scripts/similarity_utils/input_parser.py:82-87 | Fails when there are fewer than two columns or a repeated (entity, label) pair, and not otherwise. On success the rows are exactly the distinct entities of column 0 and the columns exactly the distinct labels of column 1, each sorted. |
| `InputParser.LongRoundTrip` | scripts/similarity_utils/input_parser.py:82-85 | Every entry is 0 or 1. Row i read back is exactly the set of labels paired with entity i; the fill gives 0 elsewhere. |
| `InputParser.ReadInput` | scripts/similarity_utils/input_parser.py:108-119 | "binary" returns the table unchanged. "pseudo_tab" returns its tabular binarization. "long" returns the long binarization or its error. Any other format returns `None`. |
| `CellOrder.SortedDistinct` | scripts/similarity_utils/input_parser.py:85 | The pivot's axis is strictly increasing and holds exactly the key column's values, each once. |
| `CellOrder.SortedUnique` | scripts/similarity_utils/calculate_jaccard.py:142 | Two sorted axes with the same keys are equal, so the pivot's layout depends only on the set of keys. |
| `JaccardSpec.DistanceBounds` | scripts/similarity_utils/calculate_jaccard.py:137 | Every Jaccard distance lies in [0, 1]. |
| `JaccardSpec.DistanceSymmetric` | scripts/similarity_utils/calculate_jaccard.py:137 | d(A, B) = d(B, A). |
| `JaccardSpec.DistanceToSelf` | scripts/similarity_utils/calculate_jaccard.py:113 | d(A, A) = 0, the empty set included. |
| `JaccardSpec.DistanceZeroIff` | scripts/similarity_utils/calculate_jaccard.py:137 | The distance is 0 exactly when the two sets are equal. |
| `JaccardSpec.DistanceOneIff` | scripts/similarity_utils/calculate_jaccard.py:137 | The distance is 1 exactly when the sets are disjoint and not both empty. |
| `JaccardSpec.OneMinusDistance` | scripts/similarity_utils/calculate_jaccard.py:76 | 1 − scipy's distance (the share of categories held by only one row) is the Jaccard index \|A∩B\|/\|A∪B\|. |
| `JaccardSpec.DistanceOfImages` | scripts/similarity_utils/calculate_jaccard.py:137 | Reading column positions through a duplicate-free category axis leaves the distance unchanged. |
| `CalculateJaccard.DistanceMatrixProperties` | scripts/similarity_utils/calculate_jaccard.py:131-142 | The distance matrix is N×N and symmetric, has a zero diagonal, and has every entry in [0, 1]. |
| `CalculateJaccard.DistanceZeroIffSameRow` | scripts/similarity_utils/calculate_jaccard.py:137 | Entry (i, j) is 0 exactly when rows i and j hold the same categories. |
| `CalculateJaccard.TabularDistanceIsLabelDistance` | scripts/similarity_utils/calculate_jaccard.py:135-138 | After pseudo-tabular binarization, entry (k1, k2) is the Jaccard distance of the two entities' label sets. |
| `CalculateJaccard.LongDistanceIsLabelDistance` | scripts/similarity_utils/input_parser.py:82-85 | After long binarization, entry (i1, i2) is the Jaccard distance of the label sets paired with the two entities. |
| `CalculateJaccard.FillDiagonal` | scripts/similarity_utils/calculate_jaccard.py:113 | Sets every a[i, i] to the value and leaves every other entry as it was. |
| `CalculateJaccard.JaccardPandas` | scripts/similarity_utils/calculate_jaccard.py:99-115 | The correlation matrix (callable off the diagonal, 1 on it), with its diagonal overwritten, equals the distance matrix. |
| `CalculateJaccard.JaccardLoop` | scripts/similarity_utils/calculate_jaccard.py:131-138 | The nested loop fills the N×N array. Entry (i, j) is the distance of rows i and j. |
| `CalculateJaccard.RecordDistances` | scripts/similarity_utils/calculate_jaccard.py:131-138 | The nested loop records, row by row, one (n1, n2, distance) triple per ordered pair. |
| `CalculateJaccard.PairsUpToLength` | scripts/similarity_utils/calculate_jaccard.py:135-138 | After k rows the loop has recorded k·N triples, so N² in all. |
| `CalculateJaccard.PairsUpToComplete` | scripts/similarity_utils/calculate_jaccard.py:135-138 | Every ordered pair (n1, n2), including n1 = n2, is recorded with its distance. |
| `CalculateJaccard.PivotOfRecordedPairs` | scripts/similarity_utils/calculate_jaccard.py:140-142 | Pivoting the triples fails exactly when an index label repeats. Otherwise it gives the distance matrix laid out by sorted labels. |
| `CalculateJaccard.JaccardLoopAsWritten` | scripts/similarity_utils/calculate_jaccard.py:118-144 | `jaccard_loop` as written. It raises on an empty index, because nothing was recorded and the three column names cannot be set. It also raises on a repeated label. Otherwise it returns the distance matrix in sorted-label order. |
| `CalculateJaccard.SortedDistanceMatrixProperties` | scripts/similarity_utils/calculate_jaccard.py:140-142 | On a duplicate-free index the pivoted result is N×N and symmetric, with a zero diagonal and every entry in [0, 1]. |
| `CalculateJaccard.SortedIndexLoopAgrees` | scripts/similarity_utils/calculate_jaccard.py:140-142 | On an index that is already sorted, the as-written loop gives the positional distance matrix. |
| `CalculateJaccard.LongInputLoopAgrees` | scripts/similarity_utils/calculate_jaccard.py:140-142 | Long input is already sorted by its own pivot, so the as-written loop keeps its order. |
| `CalculateJaccard.LoopPivotReordersRows` | scripts/similarity_utils/calculate_jaccard.py:140-142 | On an index c, a, b, entry (0, 1) of the as-written loop is 1, while the distance matrix has 1/2 there. |
| `CalculateJaccard.NatToString` | scripts/similarity_utils/calculate_jaccard.py:67 | `str(x)` is a non-empty string of decimal digits, one digit exactly for x < 10. |
| `CalculateJaccard.NatToStringInjective` | scripts/similarity_utils/calculate_jaccard.py:67 | Different numbers get different decimal strings. |
| `CalculateJaccard.DefaultLabelsDistinct` | scripts/similarity_utils/calculate_jaccard.py:66-67 | The invented labels e_0 … e_{N−1} are pairwise distinct, and none of them is "Entity". |
| `CalculateJaccard.DistToSim` | scripts/similarity_utils/calculate_jaccard.py:63-76 | Fails when the label count differs from the column count, and when the row count differs. Otherwise rows and columns carry the same labels, and similarity + distance = 1 in every entry. |
| `CalculateJaccard.SimilarityMatrixProperties` | scripts/similarity_utils/calculate_jaccard.py:72-76 | The distance matrix always converts. The labels are distinct, the result is symmetric with 1 on the diagonal, and every entry is the Jaccard index of its rows, in [0, 1]. |
| `CalculateJaccard.ApproachNamed` | scripts/similarity_utils/calculate_jaccard.py:164-171 | "pandas" and "loop" select their strategies, and every other name falls back to scikit. |
| `CalculateJaccard.CalculateJaccard` | scripts/similarity_utils/calculate_jaccard.py:147-177 | The corrected router. Whatever the approach, the result is the distance matrix. With `convertSimilarity` it is its similarity table, and the conversion cannot fail. |
| `CalculateJaccard.CalculateJaccardAsWritten` | scripts/similarity_utils/calculate_jaccard.py:147-177 | The router as written. scikit, pandas and unknown names give the distance matrix (or its similarity table). "loop" fails exactly on an empty index or a repeated label. Otherwise it gives the matrix in sorted-label order, or that matrix's similarity table, whose conversion succeeds. |
| `CalculateJaccard.DistToSimAsWritten` | scripts/similarity_utils/calculate_jaccard.py:72-74 | `dist_to_sim` as written. It succeeds exactly when `DistToSim` does, with the same error otherwise, and its index is the full label list. Without a label "Entity" it equals `DistToSim`. With one, that label's column is missing from every row, and the other columns keep their order. |
| `CalculateJaccard.DistToSimAgreesWithoutLabels` | scripts/similarity_utils/calculate_jaccard.py:66-74 | With invented labels, the as-written and intended conversions agree. |
| `CalculateJaccard.EntityLabelLosesColumn` | scripts/similarity_utils/calculate_jaccard.py:72-74 | With labels ["Entity", "x"], the as-written result keeps only column "x". |

## Left out

- The argparse command lines, both `main` functions, `pd.read_csv` and `to_csv` are file and terminal I/O and are not modelled. `ReadInput` takes the table that was read as a parameter.
- `jaccard_scikit` (scikit-learn's `pairwise_distances`) is a library call. The router's scikit branch returns the specification `DistanceMatrix`.
- scipy's per-pair `jaccard` and pandas' `corr` with a callable are library code. They are taken to compute `JaccardSpec.Distance`, and `corr` to put 1 on its diagonal.
- Floating point is not modelled. All arithmetic is exact `real`, so the strategies agree exactly, not up to a tolerance.
- Numbers in cells are integers. `read_csv` turns a numeric column with missing cells into floats; that is not modelled.
- In binary input, any cell other than the number 0 counts as present, including text. scikit-learn would reject text.
- `JaccardPandas`: the model reads every row as a set of present categories, as scikit-learn does by converting to booleans. scipy's per-pair formula, behind the pandas and loop strategies, compares values. Two different non-zero values (2 against 1) count there as a disagreement, so on binary input with values other than 0 and 1 the source's strategies differ; the model does not capture that.
- `JaccardLoop`: the same applies. Its distances are those of the boolean reading, not scipy's value-by-value comparison, on input with values other than 0 and 1.
- `CalculateJaccard`: with no category column (an N×0 matrix, e.g. a header-only pseudo-tabular table), scikit-learn raises and pandas' `corr` gives NaN off the diagonal. The model gives 0 everywhere, the distance of two empty sets. With no entity at all, scikit-learn raises where the model returns the empty matrix.
- `CalculateJaccardAsWritten`: the same two gaps apply to its scikit and pandas branches. Library errors on empty input are not modelled; the loop branch's own error on an empty index is.
- Duplicate column headers are not modelled: `read_csv` renames them, so a table never has two. The model keeps one row per column whatever the headers.
- The pivot's columns are a pandas MultiIndex ("val", label) holding floats 1.0/0.0. The model uses plain labels and the numbers 1 and 0.
- Keys of mixed kinds are ordered numbers first, then texts; pandas defines no order between them. Missing keys of long input are treated as ordinary keys and sorted last.
- `ValueAt` gives 0 where the pivot would leave NaN (no triple for a key pair). The loop records every pair, so this never occurs.
- `Width` gives an empty matrix zero columns. numpy also allows shape (0, k).
- `DistToSimAsWritten`: labels that name "Entity" more than once are excluded by its precondition. What pandas does then is not modelled.
- Labels given to `dist_to_sim` are modelled as strings only.
- The `chained_assignment` option and the import fallback in `calculate_jaccard.py` have no behaviour to model.
- The three strategies are described as interchangeable, but `jaccard_loop`'s pivot re-sorts rows. `CalculateJaccardAsWritten` and `JaccardLoopAsWritten` follow the code (first finding).
- `JaccardLoopAsWritten`: with a repeated label the source fails inside the loop, where selecting the label's rows yields several columns and scipy rejects the two-dimensional input. The model reports this case after the loop as `DuplicatePivotEntries`. The condition for failing is the same; only where it fails differs.
- `CalculateJaccard`: routes "loop" to the corrected `JaccardLoop`, so it does not describe the source's "loop" branch. `CalculateJaccardAsWritten` states that branch.
- `ReadInput`: its "pseudo_tab" branch returns the corrected `BinarizeTabular`. On input with an entity headed "Categories" the source's result differs as `BinarizeTabularAsWritten` states (third finding).

## Findings

| source | as written | input that shows it | evidently intended | confidence | as-written member | corrected member |
|---|---|---|---|---|---|---|
| scripts/similarity_utils/calculate_jaccard.py:140-142 | `jaccard_loop` pivots its triples on `e1`/`e2`, and the pivot sorts both axes. Row and column i therefore belong to the i-th smallest entity name, not the i-th row. | Pseudo-tabular input whose entity columns are c, a, b (rows {x}, {x, y}, {z}). Loop entry (0, 1) is d(a, b) = 1, while scikit and pandas give d(c, a) = 1/2. | Row and column i belong to row i of the input, as in the other two strategies. | medium; not executed | `CalculateJaccard.JaccardLoopAsWritten`, `CalculateJaccard.LoopPivotReordersRows` | `CalculateJaccard.JaccardLoop` |
| scripts/similarity_utils/calculate_jaccard.py:72-74 | The labels become column names. Then `sim_mat["Entity"] = labels` overwrites the column of an entity labelled "Entity", and `set_index` consumes it. | `dist_to_sim([[0, 1], [1, 0]], ["Entity", "x"])` returns a single column "x". | Both columns are kept, labelled "Entity" and "x". | medium; not executed | `CalculateJaccard.DistToSimAsWritten`, `CalculateJaccard.EntityLabelLosesColumn` | `CalculateJaccard.DistToSim` |
| scripts/similarity_utils/input_parser.py:61-64 | Each entity's one-hot list is stored under its header. Then `binarized_data["Categories"] = all_items` overwrites the list of an entity headed "Categories", and `set_index("Categories")` consumes it. | A pseudo-tabular table with headers "Categories" and "b" and one row (x, y) yields only row "b" = (x: 0, y: 1). Category x is still a column, with no 1 in it. | Every entity keeps its row, and every category column holds a 1. | medium; not executed | `InputParser.BinarizeTabularAsWritten`, `InputParser.CategoriesEntityDropped` | `InputParser.BinarizeTabular` |
