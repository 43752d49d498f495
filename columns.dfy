/**
 The column set-up of the dashboard: the `renamed_columns` dictionary built
 by a loop over the parameters, the selection of its keys from the loaded
 table, and the in-place positional renaming of the selected columns.
 */
module Columns {
  import opened Wrappers
  import opened Seqs
  import Catalog

  /** Header labels of the two watershed columns in the survey file ("NAMA DAS" has two spaces). */
  const NamaSource: string := "NAMA DAS  :"
  const BagianSource: string := "BAGIAN DAS :"

  /** Their short names after the rename. */
  const NamaDas: string := "Nama_DAS"
  const BagianDas: string := "Bagian_DAS"

  /** The columns selected from the loaded table, in dictionary order. */
  const SourceColumns: seq<string> := [NamaSource, BagianSource] + Catalog.Parameters

  /** The column names the analysis works with. */
  const AnalysisColumns: seq<string> := [NamaDas, BagianDas] + Catalog.Parameters

  /**
   A Python `dict`: a map together with the order in which its keys were
   first inserted (the order `keys()` reports).
   */
  datatype Dict<K, V> = Dict(keys: seq<K>, entries: map<K, V>) {

    ghost predicate Valid()
    {
      && Distinct(keys)
      && entries.Keys == set k | k in keys
    }

    /**
     `d[k] = v`: a new key goes to the end of the order, an existing key
     keeps its place and gets the new value.
     */
    function Insert(k: K, v: V): (d: Dict<K, V>)
      requires Valid()
      ensures d.Valid()
      ensures d.entries == entries[k := v]
      ensures k in entries ==> d.keys == keys
      ensures k !in entries ==> d.keys == keys + [k]
    {
      if k in entries then Dict(keys, entries[k := v]) else Dict(keys + [k], entries[k := v])
    }
  }

  /** The dictionary literal with the two watershed columns. */
  function WatershedRenames(): (d: Dict<string, string>)
    ensures d.Valid()
  {
    Dict([NamaSource, BagianSource], map[NamaSource := NamaDas, BagianSource := BagianDas])
  }

  /**
   The loop `for param in params: d[param] = param` over labels that are
   distinct and not yet keys of `d`: each one is appended to the order and
   mapped to itself, and the entries already there are kept.
   */
  method InsertIdentities(d0: Dict<string, string>, params: seq<string>) returns (d: Dict<string, string>)
    requires d0.Valid()
    requires Distinct(params)
    requires forall p :: p in params ==> p !in d0.entries
    ensures d.Valid()
    ensures d.keys == d0.keys + params
    ensures forall k :: k in d0.entries ==> k in d.entries && d.entries[k] == d0.entries[k]
    ensures forall p :: p in params ==> p in d.entries && d.entries[p] == p
  {
    d := d0;
    var i := 0;
    while i < |params|
      invariant 0 <= i <= |params|
      invariant d.Valid()
      invariant d.keys == d0.keys + params[..i]
      invariant forall k :: k in d0.entries ==> k in d.entries && d.entries[k] == d0.entries[k]
      invariant forall k :: 0 <= k < i ==> params[k] in d.entries && d.entries[params[k]] == params[k]
    {
      var param := params[i];
      assert param !in d.entries by {
        assert param in params;
        assert param !in d0.keys;
        assert param !in params[..i];
        assert param !in d.keys;
      }
      d := d.Insert(param, param);
      assert params[..i + 1] == params[..i] + [param];
      i := i + 1;
    }
    assert params[..i] == params;
    forall p | p in params ensures p in d.entries && d.entries[p] == p {
      var k :| 0 <= k < |params| && params[k] == p;
    }
  }

  /**
   Builds `renamed_columns`: the two watershed entries, then every parameter
   mapped to itself, in the order of the list.
   */
  method BuildRenames() returns (d: Dict<string, string>)
    ensures d.Valid()
    ensures d.keys == SourceColumns && |d.keys| == 13
    ensures d.entries[NamaSource] == NamaDas && d.entries[BagianSource] == BagianDas
    ensures forall p :: p in Catalog.Parameters ==> d.entries[p] == p
  {
    Catalog.ParametersDistinct();
    var literal := WatershedRenames();
    assert NamaSource !in Catalog.Parameters && BagianSource !in Catalog.Parameters;
    d := InsertIdentities(literal, Catalog.Parameters);
  }

  /** Renaming the selected columns position by position yields the analysis columns. */
  lemma RenamesGiveAnalysisColumns(renames: Dict<string, string>, renamed: seq<string>)
    requires renames.keys == SourceColumns && renames.entries.Keys == set k | k in SourceColumns
    requires renames.entries[NamaSource] == NamaDas && renames.entries[BagianSource] == BagianDas
    requires forall p :: p in Catalog.Parameters ==> renames.entries[p] == p
    requires |renamed| == |SourceColumns|
    requires forall i :: 0 <= i < |renamed| ==> renamed[i] == renames.entries[SourceColumns[i]]
    ensures renamed == AnalysisColumns
  {
    forall i | 0 <= i < |renamed| ensures renamed[i] == AnalysisColumns[i] {
      if i >= 2 {
        assert SourceColumns[i] == Catalog.Parameters[i - 2] == AnalysisColumns[i];
      }
    }
  }

  /** An index of `name` in `names`: its first occurrence. */
  function IndexOf(names: seq<string>, name: string): (i: nat)
    requires name in names
    ensures i < |names| && names[i] == name
    ensures forall j :: 0 <= j < i ==> names[j] != name
  {
    if names[0] == name then 0 else 1 + IndexOf(names[1..], name)
  }

  /** A table as `read_csv` delivers it: a header row and the data rows. */
  datatype Table<C> = Table(columns: seq<string>, rows: seq<seq<C>>) {

    /** Every row is as wide as the header. */
    ghost predicate WellFormed()
    {
      forall row :: row in rows ==> |row| == |columns|
    }
  }

  /**
   `data[names]`: the named columns of every row, in the order given; a
   name missing from the header is a `KeyError`.
   */
  function Select<C>(t: Table<C>, names: seq<string>): (r: Result<Table<C>, Catalog.LookupError>)
    requires t.WellFormed()
    ensures r.Success? <==> forall n :: n in names ==> n in t.columns
    ensures r.Failure? ==> r.error.key in names && r.error.key !in t.columns
    ensures r.Failure? ==>
              exists i :: (0 <= i < |names| && names[i] == r.error.key && (forall j :: 0 <= j < i ==> names[j] in t.columns))
    ensures r.Success? ==> r.value.WellFormed() && r.value.columns == names && |r.value.rows| == |t.rows|
    ensures r.Success? ==> forall j, i :: 0 <= j < |t.rows| && 0 <= i < |names| ==>
              r.value.rows[j][i] == t.rows[j][IndexOf(t.columns, names[i])]
  {
    if forall n :: n in names ==> n in t.columns then
      var rows := seq(|t.rows|, j requires 0 <= j < |t.rows| =>
        seq(|names|, i requires 0 <= i < |names| => t.rows[j][IndexOf(t.columns, names[i])]));
      Success(Table(names, rows))
    else
      var i := FirstMissing(names, set c | c in t.columns);
      Failure(Catalog.KeyError(names[i]))
  }

  /** The position of the first of `names` that is not in `present`. */
  function FirstMissing(names: seq<string>, present: set<string>): (i: nat)
    requires exists n :: n in names && n !in present
    ensures i < |names| && names[i] !in present
    ensures forall j :: 0 <= j < i ==> names[j] in present
  {
    if names[0] !in present then 0
    else
      var k := FirstMissing(names[1..], present);
      assert forall j :: 0 < j <= k ==> names[j] == names[1..][j - 1];
      k + 1
  }

  /** A data frame whose column labels can be reassigned in place. */
  class Frame<C> {
    var columns: seq<string>
    var rows: seq<seq<C>>

    ghost predicate Valid()
      reads this
    {
      forall row :: row in rows ==> |row| == |columns|
    }

    constructor (t: Table<C>)
      requires t.WellFormed()
      ensures Valid()
      ensures columns == t.columns && rows == t.rows
    {
      columns := t.columns;
      rows := t.rows;
    }

    /**
     `frame.columns = [renames[c] for c in frame.columns]`: every label is
     replaced by its image, position by position. A label without an image
     raises `KeyError` before anything is assigned.
     */
    method RenameColumns(renames: map<string, string>) returns (r: Result<(), Catalog.LookupError>)
      requires Valid()
      modifies this
      ensures Valid()
      ensures rows == old(rows) && |columns| == |old(columns)|
      ensures r.Success? <==> forall c :: c in old(columns) ==> c in renames
      ensures r.Success? ==> forall i :: 0 <= i < |columns| ==> columns[i] == renames[old(columns)[i]]
      ensures r.Failure? ==> columns == old(columns) && r.error.key in columns && r.error.key !in renames
      ensures r.Failure? ==>
                exists i :: (0 <= i < |columns| && columns[i] == r.error.key && (forall j :: 0 <= j < i ==> columns[j] in renames))
    {
      if forall c :: c in columns ==> c in renames {
        var current := columns;
        columns := seq(|current|, i requires 0 <= i < |current| => renames[current[i]]);
        r := Success(());
      } else {
        var i := FirstMissing(columns, renames.Keys);
        r := Failure(Catalog.KeyError(columns[i]));
      }
    }
  }

  /**
   The set-up as a whole: select the dictionary's keys from the loaded table,
   then rename them. It succeeds exactly when the file has all thirteen
   columns, and the frame then has the analysis columns in order.
   */
  method FilterData<C>(data: Table<C>) returns (r: Result<Frame<C>, Catalog.LookupError>)
    requires data.WellFormed()
    ensures r.Success? <==> forall c :: c in SourceColumns ==> c in data.columns
    ensures r.Failure? ==> r.error.key in SourceColumns && r.error.key !in data.columns
    ensures r.Success? ==> fresh(r.value) && r.value.Valid()
    ensures r.Success? ==> r.value.columns == AnalysisColumns
    ensures r.Success? ==> r.value.rows == Select(data, SourceColumns).value.rows
  {
    var renames := BuildRenames();
    var selected := Select(data, renames.keys);
    if selected.Failure? {
      return Failure(selected.error);
    }
    var frame := new Frame(selected.value);
    assert frame.columns == SourceColumns;
    var renamed := frame.RenameColumns(renames.entries);
    assert renamed.Success? by {
      forall c | c in SourceColumns ensures c in renames.entries {
        assert c in renames.keys;
      }
    }
    RenamesGiveAnalysisColumns(renames, frame.columns);
    r := Success(frame);
  }
}
