/** The cross-validation data feeder of utils/load_data.py (`DataGenerator`).

    Construction extends the caller's exclusion list in place, keeps every
    training column not excluded, selects the same columns from the test
    table, checks the two column lists pairwise, and asks a stratified
    splitter once for the fold partition.  The object then acts as a
    restartable iterator over (train, validation, test) triples driven by a
    single cursor.

    Reading the CSV files is left to the caller (the tables are inputs), and
    the splitter (scikit-learn's StratifiedKFold / StratifiedGroupKFold) is a
    function parameter whose outcome the model takes as given. */
module LoadData {
  import opened Wrappers
  import opened Tables

  /** An entry of the exclusion list: a column name, or `None` (Python's None),
      which construction appends when no group column is given. */
  type Label = Option<string>

  /** The caller's `remove_cols` list, an object that construction extends in place. */
  class NameList {
    var items: seq<Label>

    constructor (init: seq<Label>)
      ensures items == init
    {
      items := init;
    }

    /** `list.extend`: appends `more` at the end, in order. */
    method Extend(more: seq<Label>)
      modifies this
      ensures items == old(items) + more
    {
      items := items + more;
    }
  }

  /** The exclusion list after construction has extended it with the target
      and the group column. */
  function Extended(removeCols: seq<Label>, targetCol: string, groupCol: Option<string>): (r: seq<Label>)
    ensures |r| == |removeCols| + 2 && removeCols <= r
    ensures r[|removeCols|] == Some(targetCol) && r[|removeCols| + 1] == groupCol
    ensures Some(targetCol) in r && groupCol in r
    ensures forall l :: l in r <==> l in removeCols || l == Some(targetCol) || l == groupCol
  {
    removeCols + [Some(targetCol), groupCol]
  }

  /** Python truthiness of `self.group_col`: None and the empty name both
      select the ungrouped splitter. */
  predicate Grouped(groupCol: Option<string>): (r: bool)
    ensures r ==> groupCol.Some?
    ensures groupCol == None || groupCol == Some("") ==> !r
    ensures groupCol.Some? && groupCol.value != "" ==> r
  {
    groupCol.Some? && groupCol.value != ""
  }

  /** The training columns that survive the exclusion list, in table order. */
  function KeptColumns(columns: seq<string>, removed: seq<Label>): (r: seq<string>)
    ensures forall c :: c in r <==> c in columns && Some(c) !in removed
    ensures |r| <= |columns|
  {
    if columns == [] then []
    else
      var init, last := columns[..|columns| - 1], columns[|columns| - 1];
      assert columns == init + [last];
      assert forall c :: c in columns <==> c in init || c == last;
      KeptColumns(init, removed) + if Some(last) in removed then [] else [last]
  }

  /** The append loop over `self.data.columns` that builds `selected_cols`. */
  method SelectedColumns(columns: seq<string>, removed: seq<Label>) returns (selected: seq<string>)
    ensures selected == KeptColumns(columns, removed)
  {
    selected := [];
    for i := 0 to |columns|
      invariant selected == KeptColumns(columns[..i], removed)
    {
      assert columns[..i + 1][..i] == columns[..i];
      if Some(columns[i]) !in removed {
        selected := selected + [columns[i]];
      }
    }
    assert columns[..|columns|] == columns;
  }

  /** Filtering distributes over concatenation: kept columns stay in the
      relative order the training table gives them. */
  lemma {:induction false} KeptColumnsAppend(a: seq<string>, b: seq<string>, removed: seq<Label>)
    ensures KeptColumns(a + b, removed) == KeptColumns(a, removed) + KeptColumns(b, removed)
    decreases |b|
  {
    if b == [] {
      assert a + b == a;
    } else {
      var init, last := b[..|b| - 1], b[|b| - 1];
      assert (a + b)[..|a + b| - 1] == a + init;
      assert (a + b)[|a + b| - 1] == last;
      KeptColumnsAppend(a, init, removed);
    }
  }

  /** Filtering a second time with the same list removes nothing more. */
  lemma {:induction false} KeptColumnsIdempotent(columns: seq<string>, removed: seq<Label>)
    ensures KeptColumns(KeptColumns(columns, removed), removed) == KeptColumns(columns, removed)
    decreases |columns|
  {
    if columns != [] {
      var init, last := columns[..|columns| - 1], columns[|columns| - 1];
      KeptColumnsIdempotent(init, removed);
      KeptColumnsAppend(KeptColumns(init, removed), if Some(last) in removed then [] else [last], removed);
      if Some(last) !in removed {
        assert [last][..0] == [];
      }
    }
  }

  /** A column is dropped exactly when its name is listed: a list naming none
      of the columns keeps them all, in place. */
  lemma {:induction false} KeptColumnsNoneListed(columns: seq<string>, removed: seq<Label>)
    requires forall c :: c in columns ==> Some(c) !in removed
    ensures KeptColumns(columns, removed) == columns
    decreases |columns|
  {
    if columns != [] {
      var init := columns[..|columns| - 1];
      assert forall c :: c in init ==> c in columns;
      KeptColumnsNoneListed(init, removed);
      assert columns == init + [columns[|columns| - 1]];
    }
  }

  /** Line 38: `all(x == y for x, y in zip(a, b))`.  zip stops at the shorter
      list, so only the common prefix is compared. */
  function ZipAllEqual(a: seq<string>, b: seq<string>): (r: bool)
    ensures r <==> forall i :: 0 <= i < |a| && i < |b| ==> a[i] == b[i]
  {
    if a == [] || b == [] then true
    else
      var rest := ZipAllEqual(a[1..], b[1..]);
      assert forall i :: 1 <= i < |a| && i < |b| ==> a[i] == a[1..][i - 1] && b[i] == b[1..][i - 1];
      a[0] == b[0] && rest
  }

  /** The column check passes exactly when one list is a prefix of the other,
      so lists of different lengths can pass it. */
  lemma ZipAllEqualIsPrefix(a: seq<string>, b: seq<string>)
    ensures ZipAllEqual(a, b) <==> a <= b || b <= a
  {
  }

  /** One pair `(train_idxs, val_idxs)` yielded by the splitter. */
  datatype Split = Split(train: seq<nat>, val: seq<nat>)

  /** The arguments `self.skf.split(*args)` receives: the feature table, the
      target, the group vector in grouped mode, and `n_splits`. */
  datatype SplitArgs<V> = SplitArgs(features: Table<V>, target: seq<V>, groups: Option<seq<V>>, nSplits: int)

  /** What scikit-learn's splitters promise when they do not raise: at least
      two folds, exactly `n_splits` of them, and positions of rows of the
      table they were given. */
  predicate SplitContract<V>(args: SplitArgs<V>, out: Option<seq<Split>>) {
    out.Some? ==>
      && args.nSplits >= 2
      && |out.value| == args.nSplits
      && forall s :: s in out.value ==>
           InRange(s.train, |args.features.rows|) && InRange(s.val, |args.features.rows|)
  }

  /** The failures construction can raise. */
  datatype LoadError =
    | MissingColumns(labels: seq<string>)   // KeyError from pandas `.loc` on a missing column
    | ColumnMismatch                        // the assert on line 38
    | SplitterError                         // the splitter raised (e.g. too few members of a class)

  function FromTable(e: TableError): LoadError {
    MissingColumns(e.labels)
  }

  /** The group vector handed to the grouped splitter: the group column of the
      full training table, one entry per row. */
  function GroupVector<V>(data: Table<V>, groupCol: string): (r: Result<seq<V>, TableError>)
    requires data.Valid()
    ensures r.Ok? <==> groupCol in data.columns
    ensures r.Ok? ==> |r.value| == |data.rows|
    ensures r.Ok? ==> forall i :: 0 <= i < |data.rows| ==> r.value[i] == data.rows[i][IndexOf(data.columns, groupCol)]
  {
    Column(data, groupCol)
  }

  /** Line 48 as written: the group column is looked up on `self.train`, the
      table restricted to the selected feature columns. */
  function GroupVectorAsWritten<V>(train: Table<V>, groupCol: string): (r: Result<seq<V>, TableError>)
    requires train.Valid()
    ensures r.Ok? <==> groupCol in train.columns
  {
    Column(train, groupCol)
  }

  /** The selected training features: `self.data.loc[:, selected_cols]`. */
  function Features<V>(data: Table<V>, selected: seq<string>): (r: Table<V>)
    requires data.Valid()
    requires forall c :: c in selected ==> c in data.columns
    ensures r.Valid() && r.columns == selected && |r.rows| == |data.rows|
    ensures forall i, k :: 0 <= i < |data.rows| && 0 <= k < |selected| ==>
      r.rows[i][k] == data.rows[i][IndexOf(data.columns, selected[k])]
  {
    SelectColumns(data, selected).value
  }

  /** As written, grouped mode can never get past line 48: the group column is
      on the exclusion list, so it is never among the selected features. */
  lemma GroupLookupAsWrittenFails<V>(data: Table<V>, removeCols: seq<Label>, targetCol: string, groupCol: Option<string>)
    requires data.Valid() && Grouped(groupCol)
    ensures GroupVectorAsWritten(Features(data, KeptColumns(data.columns, Extended(removeCols, targetCol, groupCol))), groupCol.value)
            == Err(KeyError([groupCol.value]))
  {
  }

  /** The branch at lines 47-52 and the call to the splitter: in grouped mode
      the group vector is passed as a third argument.  A missing group column
      raises KeyError; a splitter that raises gives SplitterError. */
  function SplitterOutput<V(!new)>(data: Table<V>, train: Table<V>, target: seq<V>, groupCol: Option<string>, cv: int,
                             split: SplitArgs<V> -> Option<seq<Split>>): (r: Result<seq<Split>, LoadError>)
    requires data.Valid()
    requires forall a :: SplitContract(a, split(a))
    ensures Grouped(groupCol) && groupCol.value !in data.columns ==> r == Err(MissingColumns([groupCol.value]))
    ensures r.Ok? ==> (Grouped(groupCol) ==> groupCol.value in data.columns)
    ensures r.Ok? ==> split(SplitArgs(train, target,
                        if Grouped(groupCol) then Some(GroupVector(data, groupCol.value).value) else None, cv)) == Some(r.value)
    ensures r == Err(SplitterError) <==>
      (Grouped(groupCol) ==> groupCol.value in data.columns) &&
      split(SplitArgs(train, target,
            if Grouped(groupCol) then Some(GroupVector(data, groupCol.value).value) else None, cv)) == None
    ensures (Grouped(groupCol) ==> groupCol.value in data.columns) &&
      split(SplitArgs(train, target,
            if Grouped(groupCol) then Some(GroupVector(data, groupCol.value).value) else None, cv)).Some?
      ==> r == Ok(split(SplitArgs(train, target,
                  if Grouped(groupCol) then Some(GroupVector(data, groupCol.value).value) else None, cv)).value)
    ensures r.Ok? ==> cv >= 2 && |r.value| == cv
    ensures r.Ok? ==> forall s :: s in r.value ==> InRange(s.train, |train.rows|) && InRange(s.val, |train.rows|)
  {
    var groups: Result<Option<seq<V>>, LoadError> :=
      if !Grouped(groupCol) then Ok(None)
      else
        match GroupVector(data, groupCol.value)
        case Ok(g) => Ok(Some(g))
        case Err(e) => Err(FromTable(e));
    if groups.Err? then Err(groups.error)
    else
      var args := SplitArgs(train, target, groups.value, cv);
      assert SplitContract(args, split(args));
      match split(args)
      case None => Err(SplitterError)
      case Some(splits) => Ok(splits)
  }

  /** The loop at lines 54-58: the two parallel lists of train and validation
      positions, entry i of each taken from the i-th split. */
  method CollectFolds(splits: seq<Split>) returns (trainIdxs: seq<seq<nat>>, valIdxs: seq<seq<nat>>)
    ensures |trainIdxs| == |splits| && |valIdxs| == |splits|
    ensures forall i :: 0 <= i < |splits| ==> trainIdxs[i] == splits[i].train && valIdxs[i] == splits[i].val
  {
    trainIdxs, valIdxs := [], [];
    for i := 0 to |splits|
      invariant |trainIdxs| == i && |valIdxs| == i
      invariant forall k :: 0 <= k < i ==> trainIdxs[k] == splits[k].train && valIdxs[k] == splits[k].val
    {
      trainIdxs := trainIdxs + [splits[i].train];
      valIdxs := valIdxs + [splits[i].val];
    }
  }

  function TrainParts(splits: seq<Split>): seq<seq<nat>> {
    seq(|splits|, i requires 0 <= i < |splits| => splits[i].train)
  }

  function ValParts(splits: seq<Split>): seq<seq<nat>> {
    seq(|splits|, i requires 0 <= i < |splits| => splits[i].val)
  }

  /** `_get_cv_idxs`: either the splitter's failure or the two fold lists. */
  method GetCvIdxs<V(!new)>(data: Table<V>, train: Table<V>, target: seq<V>, groupCol: Option<string>, cv: int,
                      split: SplitArgs<V> -> Option<seq<Split>>)
    returns (r: Result<(seq<seq<nat>>, seq<seq<nat>>), LoadError>)
    requires data.Valid()
    requires forall a :: SplitContract(a, split(a))
    ensures var out := SplitterOutput(data, train, target, groupCol, cv, split);
      && (r.Err? <==> out.Err?)
      && (r.Err? ==> r.error == out.error)
      && (r.Ok? ==> r.value.0 == TrainParts(out.value) && r.value.1 == ValParts(out.value))
  {
    var out := SplitterOutput(data, train, target, groupCol, cv, split);
    if out.Err? {
      return Err(out.error);
    }
    var trainIdxs, valIdxs := CollectFolds(out.value);
    return Ok((trainIdxs, valIdxs));
  }

  /** One element of the iteration: the training pair, the validation pair
      and the test features. */
  datatype Fold<V> = Fold(xTrain: Table<V>, yTrain: seq<V>, xVal: Table<V>, yVal: seq<V>, xTest: Table<V>)

  /** Everything construction computes once and never changes afterwards. */
  datatype Prepared<V> = Prepared(
    data: Table<V>,
    train: Table<V>,
    target: seq<V>,
    groupCol: Option<string>,
    test: Table<V>,
    trainFolds: seq<seq<nat>>,
    valFolds: seq<seq<nat>>,
    nSplits: nat)
  {
    predicate Valid() {
      && train.Valid() && test.Valid()
      && |target| == |train.rows|
      && |trainFolds| == nSplits && |valFolds| == nSplits
      && forall i :: 0 <= i < nSplits ==>
           InRange(trainFolds[i], |train.rows|) && InRange(valFolds[i], |train.rows|)
    }

    /** Fold i: the rows and targets at the i-th train and validation
        positions, each feature row aligned with its target, and the whole
        test table. */
    function FoldAt(i: nat): (f: Fold<V>)
      requires Valid() && i < nSplits
      ensures f.xTest == test
      ensures f.xTrain.columns == train.columns && f.xVal.columns == train.columns
      ensures |f.xTrain.rows| == |trainFolds[i]| && |f.yTrain| == |trainFolds[i]|
      ensures |f.xVal.rows| == |valFolds[i]| && |f.yVal| == |valFolds[i]|
      ensures forall j :: 0 <= j < |trainFolds[i]| ==>
        f.xTrain.rows[j] == train.rows[trainFolds[i][j]] && f.yTrain[j] == target[trainFolds[i][j]]
      ensures forall j :: 0 <= j < |valFolds[i]| ==>
        f.xVal.rows[j] == train.rows[valFolds[i][j]] && f.yVal[j] == target[valFolds[i][j]]
    {
      Fold(TakeRows(train, trainFolds[i]), Take(target, trainFolds[i]),
           TakeRows(train, valFolds[i]), Take(target, valFolds[i]),
           test)
    }
  }

  /** Lines 25-40: what construction computes from the two tables, the
      caller's exclusion list as it was before the call, and the splitter. */
  function Prepare<V(!new)>(data: Table<V>, testData: Table<V>, targetCol: string, cv: int, groupCol: Option<string>,
                      removeCols: seq<Label>, split: SplitArgs<V> -> Option<seq<Split>>)
    : (r: Result<Prepared<V>, LoadError>)
    requires data.Valid() && testData.Valid()
    requires forall a :: SplitContract(a, split(a))
    ensures r.Ok? ==> r.value.Valid() && r.value.nSplits == cv && r.value.data == data && r.value.groupCol == groupCol
    ensures r.Ok? ==> r.value.train.columns == KeptColumns(data.columns, Extended(removeCols, targetCol, groupCol))
    ensures r.Ok? ==> r.value.test.columns == r.value.train.columns
    ensures r.Ok? ==> targetCol !in r.value.train.columns
    ensures r.Ok? && groupCol.Some? ==> groupCol.value !in r.value.train.columns
    ensures targetCol !in data.columns ==> r == Err(MissingColumns([targetCol]))
    ensures targetCol in data.columns && Missing(testData.columns, KeptColumns(data.columns, Extended(removeCols, targetCol, groupCol))) != []
            ==> r == Err(MissingColumns(Missing(testData.columns, KeptColumns(data.columns, Extended(removeCols, targetCol, groupCol)))))
    ensures r != Err(ColumnMismatch)
    ensures var sel := KeptColumns(data.columns, Extended(removeCols, targetCol, groupCol));
      targetCol in data.columns && Missing(testData.columns, sel) == [] ==>
        var out := SplitterOutput(data, Features(data, sel), Column(data, targetCol).value, groupCol, cv, split);
        && (r.Ok? <==> out.Ok?)
        && (r.Err? ==> r.error == out.error)
        && (r.Ok? ==> r.value.trainFolds == TrainParts(out.value) && r.value.valFolds == ValParts(out.value)
                      && r.value.target == Column(data, targetCol).value
                      && r.value.train == Features(data, sel)
                      && r.value.test == SelectColumns(testData, sel).value)
  {
    var removed := Extended(removeCols, targetCol, groupCol);
    assert removed[|removeCols|] == Some(targetCol);
    assert removed[|removeCols| + 1] == groupCol;
    var selected := KeptColumns(data.columns, removed);
    var train := Features(data, selected);
    var target := Column(data, targetCol);
    if target.Err? then Err(FromTable(target.error))
    else
      var test := SelectColumns(testData, selected);
      if test.Err? then Err(FromTable(test.error))
      else if !ZipAllEqual(train.columns, test.value.columns) then Err(ColumnMismatch)
      else
        var out := SplitterOutput(data, train, target.value, groupCol, cv, split);
        if out.Err? then Err(out.error)
        else Ok(Prepared(data, train, target.value, groupCol, test.value,
                         TrainParts(out.value), ValParts(out.value), cv as nat))
  }

  /** `DataGenerator`: the prepared folds and the iteration cursor `_curr_idx`,
      the only state that changes after construction. */
  class DataGenerator<V(!new)> {
    const prepared: Prepared<V>
    var cursor: nat

    /** The cursor never passes the fold count. */
    ghost predicate Valid()
      reads this
    {
      prepared.Valid() && cursor <= prepared.nSplits
    }

    constructor (p: Prepared<V>)
      requires p.Valid()
      ensures Valid() && prepared == p && cursor == 0
    {
      prepared := p;
      cursor := 0;
    }

    /** Lines 25-42: extends the caller's list in place (even when a later step
        raises), then prepares the folds and sets the cursor to 0. */
    static method Create(data: Table<V>, testData: Table<V>, targetCol: string, cv: int, groupCol: Option<string>,
                         removeCols: NameList, split: SplitArgs<V> -> Option<seq<Split>>)
      returns (r: Result<DataGenerator<V>, LoadError>)
      requires data.Valid() && testData.Valid()
      requires forall a :: SplitContract(a, split(a))
      modifies removeCols
      ensures removeCols.items == old(removeCols.items) + [Some(targetCol), groupCol]
      ensures r.Err? ==> Prepare(data, testData, targetCol, cv, groupCol, old(removeCols.items), split) == Err(r.error)
      ensures r.Ok? ==> Prepare(data, testData, targetCol, cv, groupCol, old(removeCols.items), split) == Ok(r.value.prepared)
      ensures r.Ok? ==> fresh(r.value) && r.value.Valid() && r.value.cursor == 0
    {
      removeCols.Extend([Some(targetCol), groupCol]);
      var selected := SelectedColumns(data.columns, removeCols.items);
      var train := Features(data, selected);
      var target := Column(data, targetCol);
      if target.Err? {
        return Err(FromTable(target.error));
      }
      var test := SelectColumns(testData, selected);
      if test.Err? {
        return Err(FromTable(test.error));
      }
      if !ZipAllEqual(train.columns, test.value.columns) {
        return Err(ColumnMismatch);
      }
      var folds := GetCvIdxs(data, train, target.value, groupCol, cv, split);
      if folds.Err? {
        return Err(folds.error);
      }
      var g := new DataGenerator(Prepared(data, train, target.value, groupCol, test.value, folds.value.0, folds.value.1, cv as nat));
      return Ok(g);
    }

    /** `__len__`: the splitter's `n_splits`, which is also the number of
        folds stored. */
    function Len(): (n: nat)
      requires Valid()
      reads this
      ensures n == |prepared.trainFolds| && n == |prepared.valFolds|
    {
      prepared.nSplits
    }

    /** `__next__`: while folds remain, yield fold `cursor` and advance;
        at the end, reset the cursor and signal StopIteration (`None`). */
    method Next() returns (r: Option<Fold<V>>)
      requires Valid()
      modifies this`cursor
      ensures Valid()
      ensures old(cursor) < Len() ==> r == Some(prepared.FoldAt(old(cursor))) && cursor == old(cursor) + 1
      ensures old(cursor) == Len() ==> r == None && cursor == 0
    {
      if cursor < prepared.nSplits {
        var trainIdxs := prepared.trainFolds[cursor];
        var valIdxs := prepared.valFolds[cursor];
        var xTrain, yTrain := TakeRows(prepared.train, trainIdxs), Take(prepared.target, trainIdxs);
        var xVal, yVal := TakeRows(prepared.train, valIdxs), Take(prepared.target, valIdxs);
        var xTest := prepared.test;
        cursor := cursor + 1;
        return Some(Fold(xTrain, yTrain, xVal, yVal, xTest));
      }
      cursor := 0;
      return None;
    }

    /** A caller's `for fold in generator` loop, pulling until StopIteration:
        it yields the folds from the cursor on, in order, and leaves the
        cursor at 0. */
    method ConsumeAll() returns (folds: seq<Fold<V>>)
      requires Valid()
      modifies this`cursor
      ensures Valid() && cursor == 0
      ensures |folds| == Len() - old(cursor)
      ensures forall k :: 0 <= k < |folds| ==> folds[k] == prepared.FoldAt(old(cursor) + k)
    {
      folds := [];
      var r := Next();
      while r.Some?
        invariant Valid()
        invariant r.Some? ==> old(cursor) < cursor && |folds| == cursor - 1 - old(cursor) && r.value == prepared.FoldAt(cursor - 1)
        invariant r.None? ==> cursor == 0 && |folds| == Len() - old(cursor)
        invariant forall k :: 0 <= k < |folds| ==> folds[k] == prepared.FoldAt(old(cursor) + k)
        decreases if r.Some? then Len() - cursor + 1 else 0
      {
        folds := folds + [r.value];
        r := Next();
      }
    }
  }

  /** Restartability: two complete passes over a fresh generator yield the
      same K folds in the same order, and the cursor is back at 0 after each. */
  method TwoPasses<V(!new)>(g: DataGenerator<V>) returns (first: seq<Fold<V>>, second: seq<Fold<V>>)
    requires g.Valid() && g.cursor == 0
    modifies g`cursor
    ensures g.Valid() && g.cursor == 0
    ensures |first| == g.Len() && first == second
    ensures forall k :: 0 <= k < |first| ==> first[k] == g.prepared.FoldAt(k)
  {
    first := g.ConsumeAll();
    second := g.ConsumeAll();
  }
}
