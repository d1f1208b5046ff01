/** The part of a pandas DataFrame / Series that the data loader relies on:
    an ordered list of column names over rows of opaque cell values,
    label-based column selection (`.loc[:, ...]`, which raises KeyError for a
    missing label) and position-based row selection (`.iloc[...]`). */
module Tables {
  import opened Wrappers

  /** A table: column names, and one row per record holding one cell per column. */
  datatype Table<V> = Table(columns: seq<string>, rows: seq<seq<V>>)
  {
    /** Every row has exactly one cell per column (a DataFrame is rectangular). */
    predicate Valid() {
      forall i :: 0 <= i < |rows| ==> |rows[i]| == |columns|
    }
  }

  /** The exception pandas raises: the requested labels that are not columns. */
  datatype TableError = KeyError(labels: seq<string>)

  /** Position of the first column carrying `name`. */
  function IndexOf(columns: seq<string>, name: string): (k: nat)
    requires name in columns
    ensures k < |columns| && columns[k] == name
    ensures name !in columns[..k]
  {
    if columns[0] == name then 0
    else
      assert columns == [columns[0]] + columns[1..];
      1 + IndexOf(columns[1..], name)
  }

  /** The requested labels that `columns` does not hold, in request order. */
  function Missing(columns: seq<string>, names: seq<string>): (r: seq<string>)
    ensures forall n :: n in r <==> n in names && n !in columns
    ensures r == [] <==> forall n :: n in names ==> n in columns
  {
    if names == [] then []
    else
      var rest := Missing(columns, names[1..]);
      assert forall n :: n in names <==> n == names[0] || n in names[1..];
      if names[0] in columns then rest else [names[0]] + rest
  }

  /** `t.loc[:, name]`: the cells of one column, one per row. */
  function Column<V>(t: Table<V>, name: string): (r: Result<seq<V>, TableError>)
    requires t.Valid()
    ensures r.Ok? <==> name in t.columns
    ensures r.Err? ==> r.error == KeyError([name])
    ensures r.Ok? ==> |r.value| == |t.rows|
    ensures r.Ok? ==> forall i :: 0 <= i < |t.rows| ==> r.value[i] == t.rows[i][IndexOf(t.columns, name)]
  {
    if name in t.columns then
      var k := IndexOf(t.columns, name);
      Ok(seq(|t.rows|, i requires 0 <= i < |t.rows| => t.rows[i][k]))
    else
      Err(KeyError([name]))
  }

  /** `t.loc[:, names]`: the listed columns, in the order of `names`; KeyError
      naming every missing label when one of them is absent. */
  function SelectColumns<V>(t: Table<V>, names: seq<string>): (r: Result<Table<V>, TableError>)
    requires t.Valid()
    ensures r.Ok? <==> forall n :: n in names ==> n in t.columns
    ensures r.Err? ==> r.error == KeyError(Missing(t.columns, names)) && r.error.labels != []
    ensures r.Ok? ==> r.value.Valid() && r.value.columns == names && |r.value.rows| == |t.rows|
    ensures r.Ok? ==> forall i, k :: 0 <= i < |t.rows| && 0 <= k < |names| ==>
      r.value.rows[i][k] == t.rows[i][IndexOf(t.columns, names[k])]
  {
    var missing := Missing(t.columns, names);
    if missing != [] then Err(KeyError(missing))
    else
      Ok(Table(names, seq(|t.rows|, i requires 0 <= i < |t.rows| =>
        seq(|names|, k requires 0 <= k < |names| => t.rows[i][IndexOf(t.columns, names[k])]))))
  }

  /** Every position in `idxs` addresses an element of a sequence of length `n`. */
  predicate InRange(idxs: seq<nat>, n: nat) {
    forall j :: 0 <= j < |idxs| ==> idxs[j] < n
  }

  /** `t.iloc[idxs]`: the rows at the given positions, in the given order. */
  function TakeRows<V>(t: Table<V>, idxs: seq<nat>): (r: Table<V>)
    requires t.Valid() && InRange(idxs, |t.rows|)
    ensures r.Valid() && r.columns == t.columns && |r.rows| == |idxs|
    ensures forall j :: 0 <= j < |idxs| ==> r.rows[j] == t.rows[idxs[j]]
  {
    Table(t.columns, seq(|idxs|, j requires 0 <= j < |idxs| => t.rows[idxs[j]]))
  }

  /** `s.iloc[idxs]` on a Series: the entries at the given positions, in order. */
  function Take<V>(s: seq<V>, idxs: seq<nat>): (r: seq<V>)
    requires InRange(idxs, |s|)
    ensures |r| == |idxs| && forall j :: 0 <= j < |idxs| ==> r[j] == s[idxs[j]]
  {
    seq(|idxs|, j requires 0 <= j < |idxs| => s[idxs[j]])
  }
}
