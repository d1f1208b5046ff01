# SimpleEnsemble utilities, modelled in Dafny

This project models the two utilities of SimpleEnsemble's `utils` package:

- **`DataGenerator`** (`utils/load_data.py`), the cross-validation data feeder.
  Construction extends the caller's `remove_cols` list in place with the target
  and group column names. It keeps every training column not on that list, in
  table order, and selects the same columns from the test table. It checks the
  two column lists pairwise and asks a stratified splitter once for K
  `(train_idxs, val_idxs)` pairs. The object is its own iterator: a cursor
  `_curr_idx` yields fold `cursor` while `cursor < K` and advances. At
  `cursor == K` it resets to 0 and stops, so the next pass yields the same K
  folds again.
- **`Ensembler`** (`utils/ensemble.py`), the ensembling wrapper. Construction
  checks that there are as many parameter records as model factories and at
  least two models, then builds one learner per pair, in order. `fit` fits
  every learner in list order on the same data. `predict_proba` returns a
  (learners x test rows) array whose row i is column 1 of learner i's
  probabilities.

Files:

- `wrappers.dfy`: `Option` and `Result`. An `Err` stands for the exception the
  Python code raises.
- `tables.dfy`: the part of pandas the loader uses. A table is column names
  over rectangular rows of opaque cells. `.loc[:, names]` raises KeyError for a
  missing label. `.iloc[idxs]` takes rows by position.
- `load_data.dfy`: module `LoadData`. The construction steps are pure functions
  and loop methods, and `Prepare` is the specification of all of construction.
  The class `DataGenerator` holds the immutable `Prepared` value and the mutable
  cursor. `Next` is proved against `Prepared.FoldAt`.
- `ensemble.dfy`: module `Ensemble`. The class `Ensembler` holds the sequence of
  learner states. A learner is opaque: a factory that builds its state or fails, a fit function that
  returns the new state or fails, and a predict function.

Where the code behaves in ways a reader may not expect, the model follows the
code:

- When no group column is given, Python's `None` is still appended to
  `remove_cols`.
- A test table missing a selected column fails with pandas' KeyError at line 36.
  It is not the column assert on line 38 that catches it. That assert compares
  only the zipped common prefix, and as written it can never fail (see
  `LoadData.Prepare`).
- `len()` is the splitter's `n_splits`, not a count of stored folds. The two
  agree because the splitter yields exactly `n_splits` pairs.
- The grouped mode fails as written (see Findings). The model uses the
  corrected lookup.

## Model

| member | source | states |
|---|---|---|
| `LoadData.NameList.Extend` | utils/load_data.py:26 | the list becomes its old contents followed by the given names, in order |
| `LoadData.Extended` | utils/load_data.py:26 | the extended list keeps the old list as a prefix and then holds exactly two more entries, the target name followed by the group entry (None when absent); nothing else enters it |
| `LoadData.Grouped` | utils/load_data.py:47 | the grouped branch is taken exactly for a group name that is present and non-empty (Python truthiness: None and "" select the ungrouped splitter) |
| `LoadData.KeptColumns` | utils/load_data.py:27-30 | a column is kept if and only if it is a training column whose name is not on the exclusion list; never longer than the column list |
| `LoadData.SelectedColumns` | utils/load_data.py:27-30 | the append loop over the training columns yields exactly `KeptColumns` of them |
| `LoadData.KeptColumnsAppend` | utils/load_data.py:28-30 | filtering distributes over concatenation, so kept columns keep their original relative order |
| `LoadData.KeptColumnsIdempotent` | utils/load_data.py:27-30 | filtering the selected columns again with the same list changes nothing |
| `LoadData.KeptColumnsNoneListed` | utils/load_data.py:28-30 | if no training column is listed, every column is kept, in place |
| `LoadData.ZipAllEqual` | utils/load_data.py:38 | the check holds if and only if the two lists agree at every position both have |
| `LoadData.ZipAllEqualIsPrefix` | utils/load_data.py:38 | the check holds if and only if one list is a prefix of the other, so lengths are not compared |
| `LoadData.Features` | utils/load_data.py:32 | selecting the kept columns from the training table cannot fail; it has those columns, in that order, and every row; cell (i, k) is row i's cell in the k-th selected column |
| `LoadData.GroupVectorAsWritten` | utils/load_data.py:48 | looking up the group column on the feature table succeeds only if that table has the column |
| `LoadData.GroupLookupAsWrittenFails` | utils/load_data.py:26-32 | as written, grouped mode always raises KeyError at line 48, because the group column was excluded from the feature table |
| `LoadData.GroupVector` | utils/load_data.py:47-49 | the corrected group lookup succeeds if and only if the training table has the column; entry i is row i's group cell |
| `LoadData.SplitterOutput` | utils/load_data.py:44-56 | in grouped mode the group vector is passed as a third argument; missing group column gives KeyError; a splitter failure gives SplitterError; when the group column is present (or not needed) and the splitter returns pairs, the result is exactly those pairs; on success there are exactly `cv >= 2` splits of in-range row positions |
| `LoadData.CollectFolds` | utils/load_data.py:54-58 | two lists as long as the splits, and entry i of each is the train / validation part of the i-th split |
| `LoadData.GetCvIdxs` | utils/load_data.py:44-59 | fails exactly when the splitter step fails, with the same error; otherwise returns the train parts and validation parts, in split order |
| `LoadData.Prepared.FoldAt` | utils/load_data.py:69-76 | fold i holds the training rows and targets at `cv_train_idxs[i]`, and the validation rows and targets at `cv_val_idxs[i]`, each row aligned with its target; the third component is the whole test table |
| `LoadData.Prepare` | utils/load_data.py:25-40 | a missing target column raises KeyError first, then selected columns missing from the test table raise KeyError; the column assert never fails; on success the features are exactly the kept columns, and they contain neither the target nor the group column; the test table has the same columns; there are `cv` folds of in-range positions; once the target and test columns are present, construction succeeds exactly when the splitter step does, with its error otherwise, and the stored train / validation folds are the splitter's pairs in order, the target is the data's target column and the features and test table are the selected columns |
| `LoadData.DataGenerator.constructor` | utils/load_data.py:42 | a new generator starts with the cursor at 0 |
| `LoadData.DataGenerator.Create` | utils/load_data.py:25-42 | the caller's list becomes its old contents followed by `[target_col, group_col]` even when construction then fails; the outcome is `Prepare` of the old list; a new generator is valid with cursor 0 |
| `LoadData.DataGenerator.Len` | utils/load_data.py:61-62 | the length equals the number of stored train folds and of stored validation folds |
| `LoadData.DataGenerator.Next` | utils/load_data.py:67-79 | below the length it returns fold `cursor` and advances the cursor by exactly one; at the length it resets the cursor to 0 and signals the end; only the cursor changes, and it stays within `0..len` |
| `LoadData.DataGenerator.ConsumeAll` | utils/load_data.py:64-79 | a `for` loop over the generator (which is its own iterator) yields the folds from the current cursor to the end, in order, and leaves the cursor at 0 |
| `LoadData.TwoPasses` | utils/load_data.py:67-79 | two full passes from cursor 0 yield the same K folds in the same order, fold k being `FoldAt(k)` |
| `Tables.Column` | utils/load_data.py:33 | the target column is found if and only if the table has it, with one cell per row; otherwise KeyError names it |
| `Tables.SelectColumns` | utils/load_data.py:36 | selection succeeds if and only if every requested column exists; the result has the requested columns in request order, with cells taken from the matching source column; otherwise KeyError lists the missing labels |
| `Tables.TakeRows` | utils/load_data.py:72-73 | the rows at the given positions, in the given order, with the same columns |
| `Tables.Take` | utils/load_data.py:72-73 | the target entries at the given positions, in the given order |
| `Ensemble.CheckSizes` | utils/ensemble.py:18-19 | construction is accepted if and only if the counts are equal and at least 2; a count mismatch is reported first, even with fewer than two models |
| `Ensemble.Instantiate` | utils/ensemble.py:21-23 | learner i is built by factory i from parameter record i; like `zip`, the result is as long as the shorter input; a factory that raises stops the loop, and its index is reported with the learners built before it |
| `Ensemble.Ensembler.constructor` | utils/ensemble.py:21-24 | the learners and the save path are stored as given |
| `Ensemble.Ensembler.Create` | utils/ensemble.py:6-25 | a size error from `CheckSizes` is reported whatever the factories would do, so the checks come before any learner is built; with the sizes accepted, it fails exactly when some factory raises, reporting the first one; otherwise there are as many learners as inputs, learner i built from factory i with parameters i, and the save path is stored unchanged |
| `Ensemble.Ensembler.Fit` | utils/ensemble.py:27-29 | the ensemble keeps at least two learners; every learner is fitted once, in list order, on the same `(x, y)`; a failing fit stops the loop and is reported; learners before it are fitted, and it and the later ones are untouched |
| `Ensemble.Ensembler.PredictProba` | utils/ensemble.py:31-35 | the array is newly allocated, has shape (number of learners, number of test rows), and entry (i, j) is column 1 of learner i's output for test row j |

## Left out

- Reading CSV files (`pd.read_csv`, utils/load_data.py:25, 36) is file I/O: the training and test tables are inputs.
- The fold computation belongs to scikit-learn (`StratifiedKFold`, `StratifiedGroupKFold`). It is a function parameter from the splitter's arguments to its pairs, or to a failure. Disjointness, stratification and keeping groups together are properties of that foreign code. They are neither assumed nor proved.
- `LoadData.DataGenerator.Create`: requires the splitter to keep scikit-learn's promise: at least two folds, exactly `n_splits` pairs, and only positions of rows of the table it was given. Out-of-range positions and a short fold list (an IndexError in `__next__`) are therefore not modelled.
- `LoadData.Prepare`: requires the same splitter promise as `Create`.
- `LoadData.DataGenerator.Next`: the test table is yielded by reference (`X_test = self.test`, utils/load_data.py:74), so every fold and every pass share the generator's own DataFrame, while the train and validation parts are fresh `.iloc` copies. The model yields the table as a value; it, and the restart property of `LoadData.TwoPasses`, assume callers do not mutate the yielded test table in place.
- Tables with duplicate column names: the model's lookup takes the first column with a name, while pandas returns every column with that name.
- Omitting `remove_cols` makes Python share one default list object between calls, so the names appended by one construction leak into the next. The model always takes the list explicitly and does not capture that sharing.
- Concurrent iteration over one generator shares the cursor. It is unsupported misuse and is not modelled.
- Logging (`loguru`, utils/ensemble.py:3, 25) is not modelled. Nothing is done with `save_path` beyond storing it.
- The commented-out `UniversityClassIter` (utils/load_data.py:88-101) is dead code.
- Learners are values owned by the ensemble. A factory that returns one shared object for two entries would alias them, and that is not modelled.
- `Ensemble.Ensembler.Fit`: a learner whose `fit` raises may have changed its own state before raising; the model leaves that learner's state as it was.
- `Ensemble.Ensembler.PredictProba`: requires every learner to return one row per test row with at least two columns. numpy's broadcast of a one-row result is not modelled, and neither are the IndexError / ValueError raised for other shapes or any error raised by a learner's `predict_proba`.
- The checks at utils/ensemble.py:18-19 and utils/load_data.py:38 are `assert` statements, which Python drops when run with `-O`. The model treats them as always active.
- Probabilities are opaque values of a type parameter and are only copied. The float dtype and the zeros that `np.zeros` writes first are not modelled; every entry is overwritten.

## Findings

| source | as written | input that shows it | evidently intended | confidence | as-written member | corrected member |
|---|---|---|---|---|---|---|
| utils/load_data.py:48 | the group vector is looked up on `self.train`, the table restricted to the selected feature columns | any non-empty `group_col`, say `"g"`: line 26 appends `"g"` to `remove_cols`, so `"g"` is not a selected column, and `self.train.loc[:, "g"]` raises KeyError whatever the data | look the group column up on the full training table `self.data` | high; not executed | `LoadData.GroupLookupAsWrittenFails` | `LoadData.SplitterOutput` |
