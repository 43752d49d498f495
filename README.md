# Water-quality dashboard: per-watershed aggregation

This project models the computational core of a small water-quality
dashboard (`streamlit_app.py`). The dashboard loads a survey table and keeps
the two watershed columns and eleven pollutant parameters, giving the
watershed columns short names. It then groups the rows by watershed
(`Nama_DAS`) and shows one bar per watershed for the parameter the user
selects, with a line at that parameter's regulatory safe limit.

The aggregation is the part that matters. For each watershed the value shown is

    (sum of the parameter over the watershed's rows) / (number of distinct segments, `Bagian_DAS`, in it)

This is **not** the arithmetic mean of the rows. The model keeps this rule
as the program computes it and proves how it relates to the mean. It equals
the plain sum when a watershed has a single segment. It equals the mean when
every row has its own segment. It is never below the mean when readings are
non-negative.

Modules:

- `Wrappers` (`wrappers.dfy`): `Option` and `Result`.
- `StringOrder` (`string_order.dfy`): Python's `str` comparison. It compares code point by code point, and a proper prefix comes first. pandas' `groupby` sorts its keys by this order. The module proves the order strict and total.
- `Catalog` (`catalog.dfy`): the `parameters` list and the `safe_limits` table, with the labels spelled exactly as in the program (`"8. Dissloved Oxygen (mg/L)"`, `"15. Total Phosephate (mg/L)"`). It also models the lookup `safe_limits[selected_param]`, where a missing key is a `KeyError`.
- `Columns` (`columns.dfy`): the column set-up. `Dict` is Python's insertion-ordered `dict`. `BuildRenames` builds `renamed_columns` with the program's loop. `Select` models `data[list(renamed_columns.keys())]`. The class `Frame` has the in-place assignment `filtered_data.columns = [...]`. `FilterData` runs all three steps.
- `Aggregate` (`aggregate.dfy`): `calculate_avg` as functions over records `(group, segment, value)`. The result is one `AggregateRow` per watershed, in ascending order of watershed name.
- `AggregateFacts` (`aggregate_facts.dfy`): the result read as a map (`Lookup`), the locality of each watershed's value, the comparison with the plain mean, and the two worked examples.

A few facts about the program that the model keeps:

- Parameter labels carry their numeric prefix and are spelled as in the program, misspellings included.
- A safe-limit lookup for a label outside the catalog raises Python's `KeyError`.
- Result rows are sorted by watershed name, because `groupby` sorts its keys by default.

## Model

| member | source | states |
|---|---|---|
| `Catalog.CatalogAgrees` | streamlit_app.py:13-40 | the key set of `safe_limits` is exactly the set of entries of `parameters` |
| `Catalog.ParametersDistinct` | streamlit_app.py:13-25 | `parameters` has 11 entries, no two equal |
| `Catalog.CatalogSize` | streamlit_app.py:28-40 | `safe_limits` has 11 keys |
| `Catalog.SafeLimit` | streamlit_app.py:92 | the lookup succeeds iff the label is one of the selectable parameters; it then returns the listed (positive) limit; otherwise it is a `KeyError` for that label |
| `Catalog.SelectionIsTotal` | streamlit_app.py:65-68 | every choice the selection control offers has a safe limit, namely the listed constant |
| `Columns.Dict.Insert` | streamlit_app.py:48 | `d[k] = v` keeps the dictionary well formed; a new key is appended to the key order, an existing key keeps its place; the entry for `k` becomes `v` |
| `Columns.WatershedRenames` | streamlit_app.py:43-46 | the two-entry dictionary literal is well formed |
| `Columns.InsertIdentities` | streamlit_app.py:47-48 | the loop appends each parameter to the key order, maps it to itself, and keeps the entries already present |
| `Columns.BuildRenames` | streamlit_app.py:43-48 | `renamed_columns` has 13 keys: `'NAMA DAS  :'`, `'BAGIAN DAS :'`, then the parameters in list order; the first two map to `Nama_DAS` and `Bagian_DAS`, each parameter to itself |
| `Columns.Select` | streamlit_app.py:51 | the selection succeeds iff every requested label is a column; the result has exactly the requested columns, in order, with each cell taken from the named column of the same row; otherwise `KeyError` names the first requested label that is missing |
| `Columns.Frame.RenameColumns` | streamlit_app.py:52 | every label is replaced by its image, position by position, and the rows are untouched; otherwise `KeyError` names the first label, in column order, that has no image, and the frame is unchanged |
| `Columns.RenamesGiveAnalysisColumns` | streamlit_app.py:51-52 | renaming the selected columns through `renamed_columns` gives `Nama_DAS`, `Bagian_DAS`, then the 11 parameters |
| `Columns.FilterData` | streamlit_app.py:43-52 | the set-up succeeds iff the file has all 13 columns; the frame's columns are then `Nama_DAS`, `Bagian_DAS` and the parameters in order, and its rows are the selected rows |
| `StringOrder.BelowIrreflexive` | streamlit_app.py:59 | no watershed name sorts before itself in Python's `str` order (`Below`), by which `groupby` sorts its keys |
| `StringOrder.BelowTransitive` | streamlit_app.py:59 | Python's `str` order is transitive |
| `StringOrder.BelowTotal` | streamlit_app.py:59 | of two different names, one sorts before the other |
| `StringOrder.BelowAsymmetric` | streamlit_app.py:59 | two names never each sort before the other |
| `Aggregate.GroupRows` | streamlit_app.py:59 | a watershed's group holds exactly the input rows with that watershed, each as many times as it occurs in the input, and no other rows |
| `Aggregate.GroupPresent` | streamlit_app.py:59 | a watershed is among the input's watersheds exactly when its group has rows |
| `Aggregate.SegmentsNonEmpty` | streamlit_app.py:60 | every present watershed has at least one segment, so the unguarded division never divides by zero |
| `Aggregate.GroupSum` | streamlit_app.py:60 | `x[parameter_name].sum()` over a watershed's group: zero for an absent watershed, never negative when its readings are not |
| `Aggregate.DistinctSegments` | streamlit_app.py:60 | the segments counted by `x['Bagian_DAS'].nunique()`: exactly those of the watershed's rows, at most as many as its rows |
| `Aggregate.GroupAverage` | streamlit_app.py:60 | the lambda's value for a present watershed: times the number of distinct segments, it gives the watershed's sum |
| `Aggregate.InsertKey` | streamlit_app.py:59 | adding a key to an ascending key list keeps it strictly ascending and adds exactly that key |
| `Aggregate.SortedGroups` | streamlit_app.py:59 | the group keys are strictly ascending and are exactly the watersheds of the input |
| `Aggregate.CalculateAvg` | streamlit_app.py:58-62 | one row per distinct watershed (as many rows as watersheds, the same key set), strictly ascending by name, each holding the group's sum divided by its non-zero count of distinct segments |
| `AggregateFacts.LookupCalculateAvg` | streamlit_app.py:59-61 | read as a map, the result has a value exactly for the watersheds of the input, and that value is sum over distinct segments |
| `AggregateFacts.OwnRowsDecide` | streamlit_app.py:59-60 | two inputs with the same rows for a watershed give it the same value |
| `AggregateFacts.OtherWatershedsIgnored` | streamlit_app.py:59-60 | inserting rows of other watersheds anywhere in the input leaves a watershed's value unchanged |
| `AggregateFacts.SingleSegmentGivesSum` | streamlit_app.py:60 | a watershed whose rows share one segment has exactly that one segment and gets the plain sum of its values |
| `AggregateFacts.SingleSegmentScalesMean` | streamlit_app.py:60 | in that case the plain mean is the value divided by the row count; with more than one row and a non-zero sum the value differs from the mean |
| `AggregateFacts.AverageAtLeastMean` | streamlit_app.py:60 | with non-negative readings a watershed's value is at least the plain mean of its rows |
| `AggregateFacts.OneSegmentPerRowGivesMean` | streamlit_app.py:60 | when no two rows of a watershed share a segment, its value equals the plain mean |
| `AggregateFacts.WorkedExample` | streamlit_app.py:58-62 | rows A/S1/10, A/S1/20, A/S2/5 give the single row A = 17.5, while the plain mean is 35/3 |
| `AggregateFacts.TwoWatershedsKeys` | streamlit_app.py:59 | with two watersheds, the one that sorts first is the first result row, whatever the input order |
| `AggregateFacts.TwoWatershedsOrder` | streamlit_app.py:58-62 | with two watersheds, the result is exactly the row of the one that sorts first, then the row of the other, each with its aggregate |
| `AggregateFacts.AscendingExample` | streamlit_app.py:58-62 | rows B/S1/42, A/S1/10, A/S2/5 give A = 7.5 then B = 42 |

## Left out

- Loading and caching the survey file (`load_data`, `@st.cache_data`) is file I/O and framework behaviour. The loaded table is an input (`Columns.Table`). `read_csv` renames repeated header labels, so a header never repeats a label. `Columns.Select` takes the first column with a label, which is the only one.
- The Streamlit calls (title, select box, text output) and the Altair bar chart and rule are presentation. The safe-limit lookup they use is modelled (`Catalog.SafeLimit`). The `if selected_param:` test is not modelled: the select box always returns one of the non-empty parameter labels.
- Values are mathematical reals. The model does not capture floating-point rounding of pandas' `sum` and of the division. The integer limits of `safe_limits` are read as reals.
- pandas' missing values are not modelled: `sum` skips NaN, and `nunique` drops NaN, which could make a divisor zero. Every record has a segment and a value, so a present watershed always has at least one segment.
- Reading the three columns out of each frame row (`x[parameter_name]`, `x['Bagian_DAS']`, the `Nama_DAS` key) is pandas column indexing. It is not formalised. `Aggregate.CalculateAvg` takes those triples directly as records. A `KeyError` for a parameter that is not a column cannot happen: every parameter is a column of the frame (`Columns.FilterData`).
- The name of the result's value column (`Average_<parameter>`, set by `reset_index`) is not modelled. Only the chart reads it.
- Calling `calculate_avg` twice on the same data gives the same result, and it does not change `filtered_data`. In the model both hold by construction. `Aggregate.CalculateAvg` is a function of its input with no access to the heap, so there is no separate lemma.
- `Columns.Select`: on a missing column, pandas' `KeyError` lists every missing label. The model reports the first one.
- `Aggregate.CalculateAvg`: on an input with no rows the model returns an empty result. pandas' behaviour there (an `apply` over no groups, followed by `reset_index(name=...)`) is not modelled. An empty survey table is outside the model.
