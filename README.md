# Material-flow dashboard: verified model of the table pipeline

The dashboard (`app.py`) loads two sheets of a workbook, `input_to_sector`
(source, target, value) and `sector_to_output` (sector, output, amount, and one
further text column), and turns them into the data of a Sankey diagram and of
two emissions histograms. Between the spreadsheet load and the plotting calls
sits a small table pipeline, and that pipeline is what this project models:

- **Link builder** (`link_builder.dfy`, `grouping.dfy`, `collation.dfy`): the
  link table is the input rows as they are, then the output rows grouped by
  (sector, output) with `amount` summed, in pandas' sorted key order, then the
  output rows that have no NaN cell, with `sector` dropped.
- **Node index** (`node_index.dfy`): `pd.unique` over the flattened source and
  target cells gives the label list. The dict comprehension gives the name to
  position map. `Series.map` rewrites every source and target as an id.
- **Flow scaler** (`flow_scaler.dfy`): every link value is multiplied by the
  efficiency factor (the slider).
- **Emissions deriver** (`emissions.dfy`): for a sector keyword it builds the
  "original" table and then the "modified" copy. The original table holds the
  inputs into the sector and the sector's outputs and waste at baseline factor
  0.5. The modified copy has its emissions times the slider factor. The script
  writes this block out twice, for "government" and for "industry"; the model
  defines it once, with the sector as a parameter.
- **Pipeline** (`dashboard.dfy`): one run of the script for one slider value.

Common modelling choices:

- A cell is `Cell<T> = Missing | Present(value)`; `Missing` stands for pandas' NaN.
- Numbers are exact `real`s.
- `string` stands for Python's `str`.
- Every whole-column assignment of the script becomes a function that returns
  the new table. This covers the renames, `links['source'] = ...` and
  `links['value'] = ...`, and the `type` and `emission_type` columns. The script
  has no loops, so the model has no methods.

Modelling choices the code forces:

- Once `sector` is dropped, the output sheet has three columns left, because
  app.py:31 assigns three names to them and pandas accepts only as many names as
  there are columns. The grouped frame must also have exactly three columns
  (app.py:30). So the sheet has one further column besides sector, output and
  amount. This rests on pandas 1.x: there `groupby().sum()` silently drops a
  non-numeric ("nuisance") column, so the grouped frame keeps only the two key
  columns and `amount`. From pandas 2.0 on, `sum` concatenates text columns
  instead, and app.py:30 would raise; that behaviour is not modelled. The model
  gives `OutputRow` that column (`other`). A `Layout` parameter says whether
  `output` comes before or after it. `amount` is the last of the three columns.
  If it were not, the script would later multiply text by the factor.
- The label list comes from `ravel('K')`, which follows the memory order of the
  (rows x 2) array of names. The model takes the traversal as a parameter
  (`RowMajor` or `ColumnMajor`). Every node-index property is proved for both,
  and `Unique` is proved for any enumeration.
- `Series.map` turns a name it cannot find in the dictionary into NaN
  (`Lookup`). `NodeIndexBijection` proves that no name of the link table is
  missing from the dictionary.
- pandas sorts the group keys of `groupby`, so the model sorts them by Python's
  string order.
- NaN is handled as pandas does:
  - `groupby` ignores rows whose sector or output is NaN.
  - `sum` skips NaN amounts.
  - A NaN source or target is one more node name, which `pd.unique` keeps once
    and `map` finds.
  - A NaN value stays NaN when it is scaled.

## Model

| member | source | states |
|---|---|---|
| Grouping.GroupKeys | app.py:21-22 | the group keys are strictly increasing (so each pair appears once) and are exactly the (sector, output) pairs of rows whose sector and output are both present |
| Collation.StrLess | app.py:21 | Python's string order, used to sort the group keys; a proper prefix is always the smaller string |
| Collation.KeyLess | app.py:21 | tuple order on (sector, output) keys, by sector then by output; no key is below itself |
| Grouping.GroupKeysCanonical | app.py:21 | any strictly sorted list of exactly those pairs equals the group keys, so the grouped order is pandas' sorted key order whatever sort produced it |
| Grouping.GroupSumConcat | app.py:21 | the summed amount of a group over two concatenated row lists is the sum of the two parts' sums |
| Grouping.GroupSumOutside | app.py:21 | a group that no row belongs to sums to 0 |
| Grouping.GroupSum | app.py:21 | the `.sum()` of one group, skipping NaN amounts; when no amount is negative the sum is not negative |
| Grouping.GroupedLinks | app.py:21-30 | the grouped block has one link per group key |
| Grouping.GroupedLinksSpec | app.py:21-30 | each grouped link is present, names a pair that occurs in the rows and carries that pair's summed amount; links are in strictly increasing key order and never repeat a pair; every row with a present sector and output has its link |
| Grouping.SamePairCollapses | app.py:21-22 | two rows with the same (sector, output) pair yield a single link whose value is the sum of their amounts |
| LinkBuilder.DropMissingIdempotent | app.py:24-25 | applying `dropna` to an already cleaned sheet changes nothing |
| LinkBuilder.DropMissingConcat | app.py:24 | `dropna` keeps the surviving rows in their relative order: cleaning a concatenation cleans each part in turn |
| LinkBuilder.DropMissingKeepsCompleteSheet | app.py:24-25 | `dropna` leaves a sheet unchanged if and only if no row has a NaN cell |
| LinkBuilder.InputLinks | app.py:29 | the input sheet, renamed source/target/value, gives one link per row |
| LinkBuilder.DropMissing | app.py:24-25 | `dropna` keeps at most the rows it was given, only complete ones, and every complete one |
| LinkBuilder.SeparateLink | app.py:26-31 | a complete row without its sector becomes a link carrying its present amount, whose endpoints are its output and its other column in one order or the other |
| LinkBuilder.SeparateLinks | app.py:24-31 | the separate block has one link per row that survives the first `dropna`; the second `dropna` removes nothing |
| LinkBuilder.SeparateLinksConcat | app.py:24-31 | the separate block of a concatenation is the separate blocks of its parts, in order |
| LinkBuilder.SeparateLinksFromCompleteRows | app.py:24-31 | each separate link is the sector-less projection of the complete sheet row at its position, in the sheet's column order, and carries that row's present amount |
| LinkBuilder.SeparateLinksOfRow | app.py:24-31 | a single row contributes its sector-less link exactly when none of its cells is NaN, and nothing otherwise |
| LinkBuilder.BuildLinks | app.py:34 | the link table is the input rows, then the grouped block, then the separate block, and its length is the sum of the three |
| NodeIndex.Unique | app.py:37 | `pd.unique` returns a duplicate-free list holding exactly the values of its input |
| NodeIndex.UniqueInFirstOccurrenceOrder | app.py:37 | the unique values are listed in the order of their first occurrence |
| NodeIndex.NodeCells | app.py:37 | the flattened cells, in either traversal, are 2n cells that include every link's source and target and nothing but sources and targets |
| NodeIndex.RowMajorCellsAt | app.py:37 | in row-major order, cell 2k is row k's source and cell 2k+1 its target |
| NodeIndex.Labels | app.py:37 | the label list is duplicate-free, holds at most two names per link and holds every link's source and target |
| NodeIndex.Enumerate | app.py:40 | the dict comprehension maps every label to a position holding that label, the last such position when a label repeats, and has no other keys |
| NodeIndex.EnumerateInverts | app.py:40 | on a duplicate-free label list the dictionary maps `labels[i]` to `i` and its keys are exactly the labels |
| NodeIndex.RemapLink | app.py:43-44 | one link's source and target become present ids exactly when the dictionary holds the name, and then the id is the dictionary's entry; the value is unchanged |
| NodeIndex.Lookup | app.py:43-44 | `map` gives a present id exactly when the name is a key of the dictionary, and then the id stored for it; otherwise NaN |
| NodeIndex.Remap | app.py:43-44 | the source and target columns are mapped row by row, keeping the row count |
| NodeIndex.NodeIndexBijection | app.py:37-44 | labels are distinct and are exactly the names that occur as a source or target; the dictionary inverts them; every remapped source and target is a present id in [0, number of labels) whose label is the name it replaced, and the value is unchanged |
| FlowScaler.Scale | app.py:45 | scaling keeps the row count and every source and target and multiplies every value by the factor (NaN stays NaN) |
| FlowScaler.ScaleByOne | app.py:45 | a factor of 1 leaves the link table unchanged |
| FlowScaler.ScaleCompose | app.py:45 | scaling by f and then by g is scaling by f*g |
| FlowScaler.ScaleConcat | app.py:45 | scaling commutes with concatenating link tables |
| Emissions.OriginalEmissions | app.py:69-86 | the original table has one row per input row whose target is the sector plus one per output row whose sector is the sector |
| Emissions.InputsFor | app.py:71-72 | the selection keeps only input rows whose target is the sector, and every one of them |
| Emissions.OutputsFor | app.py:77-78 | the selection keeps only output rows whose sector is the sector, and every one of them |
| Emissions.KindOf | app.py:82 | an output row is an "output" emission exactly when its output is "cars", and a "waste" emission otherwise; never an "input" |
| Emissions.OriginalEmissionsSpec | app.py:69-106 | first the sector's input rows in order as "input" rows from their source with half their value, then its output rows as rows from their output with half their amount, "output" iff the output is "cars" and "waste" otherwise, all tagged "original"; every matching row is included |
| Emissions.EmissionsTable | app.py:109-114 | the final table has twice as many rows as the original table |
| Emissions.Modify | app.py:109-110 | the modified row keeps kind and source, is tagged "modified", and has its emissions times the factor, NaN staying NaN |
| Emissions.EmissionsTableHalves | app.py:109-114 | the first half is the original table; row n+i is original row i with its emissions times the factor and tagged "modified" |
| Emissions.EmissionsTableTags | app.py:86-114 | a row is tagged "original" exactly when it lies in the first half |
| Emissions.FactorOneKeepsEmissions | app.py:109-110 | with factor 1 the modified half equals the original half except for the tag |
| Emissions.ModifiedIsBaselineTimesFactor | app.py:72-110 | each modified emission is the sheet's value or amount times 0.5 times the factor |
| Emissions.UnknownSectorIsEmpty | app.py:69-86 | a sector that no input target and no output sector names gets an empty table |
| Emissions.EmissionsTableSelectsSector | app.py:69-79 | the table depends only on the sector's own rows |
| Emissions.HouseholdsToGovernment | app.py:69-73 | households to government of 100 gives an input emission of 50, and 10 at factor 0.2 |
| Emissions.IndustryCars | app.py:96-102 | industry to cars of 40 gives an "output" emission of 20, and 10 at factor 0.5 |
| Emissions.GovernmentSludge | app.py:76-82 | government to sludge of 10 gives a "waste" emission of 5 |
| Dashboard.SankeySpec | app.py:37-45 | the Sankey labels are distinct names of the link table; each link points by id to the labels of its old names, with its value scaled by the factor |
| Dashboard.Sankey | app.py:37-45 | the Sankey labels are distinct |
| Dashboard.RenderSankeySpec | app.py:21-45 | the rendered Sankey data is that of the concatenated link table and has as many links as the three blocks together |
| Dashboard.SliderChangesOnlyValues | app.py:45 | at any factor the labels are those at factor 1 and the links are the factor-1 links scaled by the factor |
| Dashboard.RenderEmissionsSpec | app.py:69-114 | the government and industry tables each start with their sector's original table, and exactly that half is tagged "original" |
| Dashboard.Render | app.py:21-114 | one run of the script for a slider value; the labels it hands to the chart are distinct |

## Left out

- Sidebar, slider widget, logo image and page layout (app.py:12-14, 129-144): UI
  only. The slider value is the `factor` parameter.
- Reading `data.xlsx` (app.py:16-18): file I/O. The two sheets are parameters,
  given as sequences of rows.
- Sankey and histogram construction (app.py:51-66, 117-126), including the
  per-bar summing of `histfunc='sum'`: this is done by an external charting
  library.
- `to_dict(orient='list')` (app.py:48) and the unused imports: they have no
  behaviour to state.
- Floating-point rounding of `value * factor` and `* 0.5`: arithmetic is exact
  over `real`.
- Output sheets with other column sets: with these, the renames at app.py:30-31
  raise a length-mismatch error. Column orders that put `amount` anywhere but
  last are also left out: with these, scaling at app.py:45 multiplies text and
  raises. Neither is modelled.
- Text in numeric columns and pandas dtype handling: `value` and `amount` are
  numeric cells.
- pandas row index labels (`reset_index`, `ignore_index`, duplicate labels after
  `concat`): only row order is modelled. The script reads the index nowhere.
- The exact memory order numpy chooses for `ravel('K')`: it depends on pandas
  internals. Both possible traversals are modelled.
