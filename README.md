# Bison lab-results ETL, modelled in Dafny

This project models the table-assembly core of the Utah DWR wildlife
lab-results pipeline (`epistemetrica/utah_dwr_python`). `bison_etl` builds one
row-per-animal table for the bison herd:

- it reads the capture sample sheet as a registry of six columns and renames
  them;
- it strips whitespace from every text column (`panda_stripper`);
- it turns each lab-test sheet (BVD type 1, BVD type 2, EHDV, and
  bluetongue/pregnancy) into a table keyed by `sample_id`;
- it folds those tables into the registry with outer merges on `sample_id`.

The identifier of a sample is the first piece of `re.split(r"\s|,", cell)` of
the specimen or animal cell (`get_sample_id`). BVD titers are cut to their
first word (`cell.split()[0]`). The EHDV sheet first loses its `:: Serum` rows.

The two helpers `panda_stripper` and `get_sample_id` appear, identical, in
`wildlife_ETL.py`, `functions.py` and `wildlife_lab_results_ETL.py`. One model
covers all three copies.

Layout, one module per file:

- `outcomes.dfy` (`Outcomes`): `Option`, `Result`, and the Python exceptions
  the modelled steps raise (`KeyError`, a column-count `ValueError` written
  `LengthMismatch`, `TypeError`, `AttributeError`, `IndexError`).
- `cells.dfy` (`Cells`): the per-cell kernels. These are Python's whitespace
  set, `str.strip()`, `re.split(r"\s|,", s)[0]` and `s.split()[0]`.
- `tables.dfy` (`Tables`): a DataFrame as a value. It has ordered labels, a
  dtype tag per column (`Object` or `Numeric`) and rows mapping labels to
  cells (`Text`, `Num` or NaN as `Missing`). This module also holds
  `df[c] = ...`, `del`, `reindex(columns=...)`, the stripping of object
  columns and the `drop` of rows holding a value.
- `frames.dfy` (`Frames`): a DataFrame as an object (`class Frame`). The
  in-place edits (`df[c] = ...`, `del df[c]`, `df.columns = [...]`) are
  methods, each specified by the table function it applies.
- `helpers.dfy` (`Helpers`): `panda_stripper` and `get_sample_id` as methods
  that change the frame they are given and return it.
- `joins.dfy` (`Joins`): `merge(on='sample_id', how='outer')` as a function on
  tables, and the fold of such merges.
- `bison.dfy` (`Bison`): the steps of `bison_etl`. Each per-test table is
  built by a method that works on a `Frame`, as the source does. Each method
  is proved equal to a specification function of the sheet it reads, and the
  whole run is proved equal to the fold of those functions.

Every operation that can raise returns a `Result`, and its contract says
when it fails and with which exception. The one exception pandas raises that
the model does not produce is the `ValueError` of `merge` on key columns of
incompatible dtypes (see "## Left out").

## Model

| member | source | states |
|---|---|---|
| Cells.SampleIdOf | wildlife_ETL.py:25 | the identifier is a prefix of the cell that holds no whitespace or comma; unless it is the whole cell, the next character is a whitespace or a comma |
| Cells.SampleIdUnique | wildlife_ETL.py:22-25 | any delimiter-free prefix that stops at a delimiter or at the end of the cell is the extracted identifier, so the identifier is the longest delimiter-free prefix |
| Cells.SampleIdOfClean | functions.py:17 | a cell holding no whitespace and no comma is its own identifier |
| Cells.SampleIdIdempotent | wildlife_lab_results_ETL.py:26 | extracting again from an extracted identifier changes nothing |
| Cells.SampleIdOfTokenThen | wildlife_ETL.py:22 | a clean token followed by a whitespace or comma and anything else yields that token |
| Cells.SampleIdOfSpecimenLabel | wildlife_ETL.py:21-22 | the documented format `"BCB111 / BIS21-027 :: Serum"` yields `"BCB111"` |
| Cells.SampleIdOfCommaLabel | functions.py:14 | a comma also ends the identifier: `"BCB111, Serum"` yields `"BCB111"` |
| Cells.SampleIdOfLeadingDelimiter | functions.py:17 | an empty cell, or one starting with whitespace or a comma, yields the empty string rather than an error, because `re.split` always returns a first piece |
| Cells.TrimStart | wildlife_ETL.py:14 | the left half of `strip`: the result is a suffix of the input; everything removed is whitespace; the result does not start with whitespace |
| Cells.TrimEnd | wildlife_ETL.py:14 | the right half of `strip`: the result is a prefix of the input; everything removed is whitespace; the result does not end with whitespace |
| Cells.Strip | wildlife_ETL.py:14 | neither end of a stripped string is whitespace |
| Cells.StripSlice | wildlife_ETL.py:14 | `strip()` returns a slice `s[i..j]` of its input, and both parts it cuts off are all whitespace |
| Cells.StripNoop | functions.py:6 | a string whose two ends are not whitespace is returned unchanged |
| Cells.StripIdempotent | wildlife_ETL.py:14 | stripping twice gives the same string as stripping once |
| Cells.Word | wildlife_ETL.py:53 | the run is a prefix free of whitespace, and it stops at whitespace or at the end |
| Cells.FirstWordTrimmed | wildlife_ETL.py:53 | `split()[0]` skips the leading whitespace that `lstrip` removes and takes the run after it; it fails when nothing is left |
| Cells.FirstWordBlank | wildlife_ETL.py:53 | `split()[0]` fails (`IndexError`) exactly on blank strings, the empty string included |
| Cells.FirstWordSpec | wildlife_ETL.py:53 | when `split()[0]` succeeds it returns a non-empty whitespace-free run; in the cell that run follows only whitespace and is followed by whitespace or the end |
| Cells.FirstWordOfWord | wildlife_ETL.py:69 | trimming a result that is already one word returns it unchanged |
| Cells.WordThen | wildlife_ETL.py:53 | a whitespace-free run followed by whitespace and anything else trims to that run |
| Cells.FirstWordOfTiter | wildlife_ETL.py:53 | the titer `"Negative @ 1:10"` trims to `"Negative"` |
| Tables.WithColumn | wildlife_ETL.py:25 | `df[c] = cells` overwrites an existing column where it stands or appends a new one last; the row count is kept and no other cell changes |
| Tables.Dropped | wildlife_ETL.py:47 | `del df[c]` removes the column from the labels, the dtypes and every row, and changes nothing else |
| Tables.StripCell | wildlife_ETL.py:14 | `.str.strip()` on an object cell: a string comes back stripped; anything else (NaN, or a number stored in an object column) comes back as NaN |
| Tables.StripTable | wildlife_ETL.py:13-14 | stripping keeps the labels, the dtypes and the row count |
| Tables.StripTableCells | wildlife_lab_results_ETL.py:14-15 | after stripping, no text cell of an object column has whitespace at either end, a cell is text exactly when it was before, and every cell of a non-object column is unchanged |
| Tables.StripTableIdempotent | functions.py:5-6 | stripping a stripped table changes nothing |
| Tables.StripTableStrippable | wildlife_lab_results_ETL.py:13-15 | a stripped table has no number left in an object column, so stripping it again never raises |
| Tables.Reindex | wildlife_ETL.py:49 | `reindex(columns=targets)` has exactly the target labels, in order; an existing label keeps its cells and dtype; a missing one becomes an all-NaN float column |
| Tables.DropRows | wildlife_ETL.py:77 | the rows kept are exactly the rows whose cell does not hold the value |
| Tables.DropWhere | wildlife_ETL.py:77 | dropping rows keeps the labels and dtypes, and keeps exactly the rows whose cell does not hold the value |
| Tables.DropRowsAppend | wildlife_ETL.py:77 | dropping works piecewise over concatenation, so the kept rows stay in their original order |
| Tables.DropRowsNone | wildlife_ETL.py:77 | a sheet without `:: Serum` rows keeps all its rows in order |
| Tables.DropRowsCount | wildlife_ETL.py:77 | the kept rows and the rows holding the value add up to all the rows |
| Frames.Relabeled | wildlife_ETL.py:37 | `df.columns = labels` renames by position: the new labels, same row count, and each cell and dtype move with their column |
| Frames.RelabeledStrippable | wildlife_ETL.py:37-39 | renaming the columns does not change whether stripping raises, since each column keeps its dtype and cells |
| Frames.Frame.Assign | wildlife_ETL.py:25 | in place, the frame becomes `WithColumn` of what it was |
| Frames.Frame.Delete | wildlife_ETL.py:47 | deleting succeeds exactly when the column exists, and then the frame becomes `Dropped` of what it was; otherwise it raises `KeyError` and the frame is unchanged |
| Frames.Frame.Relabel | wildlife_ETL.py:37 | renaming succeeds exactly when the label count equals the column count, and then the frame becomes `Relabeled`; otherwise it raises and the frame is unchanged |
| Helpers.PandaStripper | wildlife_ETL.py:11-15 | it raises `AttributeError` exactly when the `.str` accessor rejects some object column (non-null cells, none of them a string), and then leaves the frame as it was; otherwise the same frame is returned, holding the stripped table: every object column stripped, every other column untouched (identical copies at functions.py:3-7 and wildlife_lab_results_ETL.py:12-16) |
| Helpers.StripObjectColumns | wildlife_ETL.py:13 | assigning the stripped columns back, one at a time, leaves the frame equal to the stripped table |
| Helpers.SampleIds | wildlife_lab_results_ETL.py:26 | the column is accepted exactly when every cell is a string; then the result has one cell per cell, holding that cell's identifier |
| Helpers.WithSampleIdSpec | functions.py:17-18 | `get_sample_id` keeps the row count and every other column, the source column included; only `sample_id` is set, to each row's identifier; it is appended last when new |
| Helpers.GetSampleId | wildlife_ETL.py:17-26 | succeeds exactly when the column exists and holds only strings, and then changes the frame in place and returns it; a missing column raises `KeyError` and a non-string cell `TypeError`, both leaving the frame unchanged (identical copies at functions.py:9-18 and wildlife_lab_results_ETL.py:18-27) |
| Joins.Join | wildlife_ETL.py:55 | the outer join's labels are the left labels followed by the right ones without `sample_id`; every row has exactly those columns |
| Joins.Merge | wildlife_ETL.py:55 | the merge succeeds exactly when both tables have `sample_id`, and raises `KeyError` otherwise |
| Joins.JoinKeys | wildlife_ETL.py:55 | the output keys are exactly the union of the keys of the two inputs |
| Joins.JoinUnmatchedLeft | wildlife_ETL.py:71 | a left row whose key the right table lacks comes out with NaN in every right non-key column |
| Joins.JoinUnmatchedRight | wildlife_ETL.py:87 | a right row whose key the left table lacks comes out with its own cells and NaN in every left column except the key |
| Joins.JoinKeepsLeftRows | wildlife_ETL.py:55 | no left row is lost: some output row carries all its cells |
| Joins.JoinKeepsRightRows | wildlife_ETL.py:99 | no right row is lost: some output row carries all its cells |
| Joins.JoinNeverShrinks | wildlife_ETL.py:55 | an outer merge never has fewer rows than the registry it extends |
| Joins.JoinRowCount | wildlife_ETL.py:55 | with unique keys on both sides, an N-row table merged with one holding K keys it lacks has N + K rows |
| Joins.JoinRowCountIsKeyUnion | wildlife_ETL.py:55 | with unique keys on both sides, the row count is the number of distinct keys of the two tables together |
| Joins.MergeAllNames | wildlife_ETL.py:55-99 | across the whole fold every registry column is kept, and each table's non-key columns are added after them, in merge order |
| Joins.MergeAllKeys | wildlife_ETL.py:55-99 | the keys after the fold are those of the registry and of every merged table |
| Joins.MergeAllNeverShrinks | wildlife_ETL.py:55-99 | the row count never drops along the fold |
| Joins.MergeAllKeepsBaseRow | wildlife_ETL.py:55-99 | every registry row survives the fold: some final row carries all its cells |
| Joins.MergeAllKeepsTableRow | wildlife_ETL.py:55-99 | every row of every merged table survives the fold |
| Joins.FoldReadyDistinct | wildlife_ETL.py:55-99 | when every table has `sample_id` and no label repeats, every merge of the fold goes through without overlapping columns |
| Joins.MergeAllFour | wildlife_ETL.py:55-99 | folding four tables is merging them one after the other |
| Bison.FirstWords | wildlife_ETL.py:53 | trimming a column succeeds exactly when every cell is a non-blank string, and then each cell becomes its first word; otherwise it fails with `AttributeError` or `IndexError` |
| Bison.FirstWordsError | wildlife_ETL.py:53 | the error is the one of the first rejected cell: `AttributeError` for a cell that is not a string, `IndexError` for a blank string |
| Bison.RegistryOf | wildlife_ETL.py:37-39 | the registry has the six registry labels and one row per sheet row |
| Bison.RegistryKeys | wildlife_ETL.py:37-39 | the registry's `sample_id` cells are the stripped cells of the sheet's first column, row by row |
| Bison.RegistryTable | wildlife_ETL.py:37-39 | the registry is built exactly when the sheet has six columns and every object column can be stripped; a wrong column count raises the column-count error first, a rejected object column then `AttributeError`; the result is the renamed and stripped sheet |
| Bison.KeyedBySpec | wildlife_ETL.py:45-47 | after `get_sample_id` and `del`, every row is kept; each row gains its identifier and loses the source column; the label set is updated to match |
| Bison.KeyBy | wildlife_ETL.py:45-47 | in place, succeeds exactly when the column exists and holds strings, with the errors of `get_sample_id` |
| Bison.ReindexRelabel | wildlife_ETL.py:49-51 | after `reindex` and renaming, each row holds just its key and the value cell under the new name, or NaN when the sheet lacks the value column |
| Bison.KeyedSpec | wildlife_ETL.py:45-51 | the per-test table has exactly the columns `[sample_id, <test>_result]` in that order and one row per source row; row i holds row i's identifier and value |
| Bison.KeyedColumn | wildlife_ETL.py:45-51 | the steps up to renaming succeed exactly when the specimen column exists and holds strings; otherwise they raise `KeyError` or `TypeError` and leave `df` as it was; on success `df` itself is keyed (identifier added, specimen column deleted) and the new frame holds the key and the renamed value column |
| Bison.TrimResults | wildlife_ETL.py:53 | trimming succeeds exactly when every result cell has a first word; otherwise the frame is unchanged and the error is `AttributeError` or `IndexError` |
| Bison.TrimmedRow | wildlife_ETL.py:53 | trimming changes only the trimmed cell of each row, to its first word |
| Bison.KeyedTiterOk | wildlife_ETL.py:42-53 | once keyed, a BVD table trims without error exactly when the stripped sheet's titers all have a first word; a sheet with rows but no titer column fails |
| Bison.TiterOfShape | wildlife_ETL.py:42-53 | a BVD table has exactly `[sample_id, bvd_typeN_result]` and one row per sheet row |
| Bison.TiterOfRows | wildlife_ETL.py:58-69 | row i of a BVD table holds the identifier of the sheet's row i and the first word of its titer |
| Bison.TiterOfKeys | wildlife_ETL.py:42-53 | the keys of a BVD table are exactly the identifiers of the sheet's specimens |
| Bison.TiterTable | wildlife_ETL.py:42-53 | building a BVD table succeeds exactly when the sheet can be stripped and then keyed and trimmed; the first error is `AttributeError` from stripping, then `KeyError` for a missing specimen column, `TypeError` for a non-string specimen, or `AttributeError`/`IndexError` from trimming |
| Bison.EhdvOfSpec | wildlife_ETL.py:74-85 | the EHDV table has exactly `[sample_id, ehdv_result]`, one row per kept row in the same order, and the kept rows' identifiers as keys |
| Bison.EhdvKeptRows | wildlife_ETL.py:77 | no EHDV row comes from a `:: Serum` row, every other stripped row is kept, and kept plus dropped rows add up to the sheet |
| Bison.EhdvTable | wildlife_ETL.py:74-85 | building the EHDV table succeeds exactly when the sheet can be stripped and the kept specimens are strings; stripping raises `AttributeError` first, then a missing specimen column `KeyError`, a non-string kept specimen `TypeError` |
| Bison.BluetongueRenamed | wildlife_ETL.py:93 | after renaming, each row holds the sheet's four cells under `animal`, `preg_val`, `preg_result` and `bluetongue_result` |
| Bison.BluetongueKeyable | wildlife_ETL.py:93-95 | the renamed sheet can be keyed by `animal` exactly when its first column holds only strings once stripped |
| Bison.BluetongueOfShape | wildlife_ETL.py:90-97 | the bluetongue table has the three value columns followed by `sample_id`, and one row per sheet row |
| Bison.BluetongueOfRows | wildlife_ETL.py:90-97 | row i holds the animal's identifier and the sheet's three other cells of row i |
| Bison.BluetongueOfKeys | wildlife_ETL.py:90-97 | the keys of the bluetongue table are exactly the identifiers of the sheet's first column |
| Bison.BluetongueTable | wildlife_ETL.py:90-97 | building the bluetongue table succeeds exactly when the sheet can be stripped, has four columns and the first holds strings; otherwise it raises, in that order, `AttributeError`, the column-count error or `TypeError` |
| Bison.TestTablesShape | wildlife_ETL.py:42-99 | each per-test table has `sample_id`, and together they add the six result columns in merge order |
| Bison.BisonFoldReady | wildlife_ETL.py:55-99 | no merge of `bison_etl` meets an overlapping non-key column |
| Bison.BisonColumns | wildlife_ETL.py:37-99 | the final table has the six registry columns followed by the six result columns |
| Bison.BisonKeys | wildlife_ETL.py:33-99 | the final keys are the registry's plus every identifier extracted from the four test sheets |
| Bison.BisonKeepsRegistry | wildlife_ETL.py:55-99 | the final table has at least as many rows as the registry, and every registry row survives in it |
| Bison.BisonKeepsTest | wildlife_ETL.py:55-99 | every row of each per-test table survives in the final table |
| Bison.BisonKeepsBvd1 | wildlife_ETL.py:42-55 | every BVD type 1 result survives in the final table, with its identifier |
| Bison.BisonKeepsBvd2 | wildlife_ETL.py:58-71 | every BVD type 2 result survives in the final table, with its identifier |
| Bison.BisonKeepsEhdv | wildlife_ETL.py:74-87 | every kept EHDV result survives in the final table, with its identifier |
| Bison.BisonKeepsBluetongue | wildlife_ETL.py:90-99 | every bluetongue and pregnancy row survives in the final table, with its identifier |
| Bison.TestsJoins | wildlife_ETL.py:55-99 | folding the four per-test tables into the registry is the four merges of `bison_etl` in order, each without overlapping columns |
| Bison.MergeTiter | wildlife_ETL.py:42-55 | one BVD section succeeds exactly when its sheet allows it, and adds exactly the one result column to the table |
| Bison.MergeBvd | wildlife_ETL.py:42-71 | the two BVD sections succeed exactly when both sheets allow it; the result is the registry merged with both BVD tables, and has both result columns |
| Bison.MergeEhdv | wildlife_ETL.py:74-87 | the EHDV section succeeds exactly when its sheet allows it, raises its `AttributeError`, `KeyError` or `TypeError` otherwise, and adds `ehdv_result` |
| Bison.MergeBluetongue | wildlife_ETL.py:90-99 | the bluetongue section succeeds exactly when its sheet allows it, raises its error otherwise, and merges its table in |
| Bison.MergeSerology | wildlife_ETL.py:74-99 | the EHDV and bluetongue sections succeed exactly when both sheets allow it, and merge both tables in that order |
| Bison.MergeTests | wildlife_ETL.py:42-99 | the four test sections succeed exactly when every sheet allows it, and the result is the fold of the four per-test tables into the registry |
| Bison.BisonEtl | wildlife_ETL.py:33-101 | `bison_etl` succeeds exactly when every sheet allows it; a sample sheet without six columns fails first with the column-count error, one whose object columns cannot be stripped with `AttributeError`; the result is the registry with every per-test table merged in |

## Left out

- Spreadsheet and database I/O (`pd.read_excel`, `to_excel`, `to_sql`, `create_engine`, `main`): each sheet arrives as an already-read table parameter, and writing the result is not modelled.
- `usecols=[...]` column selection is part of reading, so a sheet arrives with just the selected columns.
- pandas dtype inference: a column's dtype is an explicit `Object`/`Numeric` tag. Joins keep the input dtypes, and the int-to-float conversion that NaN padding causes is not modelled.
- Joins.Merge: requires that the two tables share no label besides `sample_id`, so the `_x`/`_y` suffixing pandas applies to overlapping columns is not modelled. Every merge in `bison_etl` meets this requirement (Bison.BisonFoldReady).
- Joins.Merge: pandas also checks that the two key columns have compatible dtypes, and raises `ValueError` ("You are trying to merge on int64 and object columns") when, say, the registry's `sample_id` column is numeric and a per-test table's holds strings. Which pairs pandas accepts depends on its type inference over the cells (an empty object column, or one holding only integers, passes), and the `Object`/`Numeric` tags do not carry that. So Joins.Merge returns `Ok` whenever both tables have `sample_id`, and Bison.MergeTiter, Bison.MergeBvd, Bison.MergeEhdv, Bison.MergeBluetongue, Bison.MergeSerology, Bison.MergeTests and Bison.BisonEtl promise success where pandas raises this `ValueError`.
- Helpers.PandaStripper: a cell that is neither a string nor NaN is one `Num`, so the `.str` accessor's test is modelled as "some string, or no number". pandas also accepts a few object columns without a string, such as one of bytes or one mixing numbers and booleans; the model rejects those with `AttributeError`.
- Joins.Join: builds rows in a fixed order (left rows, then unmatched right rows). pandas sorts the keys of an outer merge, so the properties are stated over membership, keys and counts, never over positions.
- NaN keys match each other, as in pandas' `merge`: Joins.Join compares keys by cell equality, and `Missing` equals `Missing`.
- The pandas row index is not represented. `drop` is modelled by the cell value it tests, not by index labels.
- Duplicate column labels: `reindex` and renaming require distinct labels. Every call in `bison_etl` uses distinct ones.
- Regex internals: `\s|,` is a character predicate over the fixed set Python's `str.isspace()` accepts.
- Joins.JoinRowCount: the row count is stated only for unique keys on both sides. With duplicate keys pandas multiplies matching rows; this is modelled in Joins.Join, and Joins.JoinNeverShrinks and the keep-every-row lemmas still hold.
- Bison.BisonEtl: it names the error for the sample sheet and the first BVD sheet. For a later sheet that fails it states only that the run fails; the error of each section is stated by that section's method (Bison.MergeEhdv, Bison.MergeBluetongue, Bison.TiterTable).
- Bison.MergeSerology: it states when the EHDV and bluetongue sections succeed, but not which error they raise; Bison.MergeEhdv and Bison.MergeBluetongue state that.
- The elk, moose, deer, pronghorn and sheep pipelines, the fixed-stride elk reshape and the `"Neg"`-prefix result coercion belong to other species pipelines, outside `bison_etl`.

Consequences of the code as written:

- `get_sample_id`'s docstring (wildlife_ETL.py:17-23) says it "splits string by whitespace or commas and returns first element". `re.split(r"\s|,", row)[0]` splits at every single delimiter, so a cell that starts with a whitespace or a comma gives an empty identifier and no error (Cells.SampleIdOfLeadingDelimiter).
- `reindex(columns=['sample_id', 'Titer'])` (wildlife_ETL.py:49 and 65) and `reindex(columns=['sample_id', 'Result'])` (wildlife_ETL.py:83) do not check that the column exists: a sheet without it gets an all-NaN column. For BVD that NaN makes the trimming at lines 53 and 69 raise `AttributeError`; for EHDV the NaN column goes into the merge without complaint (Tables.Reindex, Bison.EhdvOfSpec).
- The trimming `row.split()[0]` (wildlife_ETL.py:53 and 69) raises `AttributeError` for a NaN titer and `IndexError` for a blank one, and nothing catches either (Bison.FirstWordsError).
- The outer merges (wildlife_ETL.py:55, 71, 87 and 99) leave one row per `sample_id` only when neither side repeats a key; with a repeated key every pair of matching rows becomes a row, as Joins.Join builds them (Joins.JoinRowCountIsKeyUnion).
