# Polar fuel-table chart parameters and CSV export, in Dafny

This project models the data-handling core of the digital-shipyard command-line
client: how a ship's fuel table turns into the parameters of its polar
performance chart, and how the `fuel_table` command renders that table as CSV.

A fuel table is a sequence of named columns of reals (`FuelTable.Table`).
Floating-point arithmetic is idealised as exact `real` arithmetic. The Python
exceptions the code can raise are modelled as error results instead of
preconditions:

- a `KeyError` for an absent column becomes `MissingColumn`;
- a `ValueError` from `min`/`max` of an empty column becomes `EmptyColumn`;
- the `ValueError` of `pd.DataFrame` on columns of different lengths becomes
  `RaggedColumns`;
- an `IndexError` in the CSV branch becomes `NoKeys` or `ShortColumn`.

Modules:

- `FuelTable`: columns, the DataFrame equal-length check, lookup by name,
  `min`/`max` and constant columns.
- `VariableOptions`: `get_variable_options`. It builds one selector button per
  output column, meaning every column not named in the context list
  `sorting_cols`. Each button re-bands the two contour traces (0 and 1) and
  leaves trace 2, the polar-axis carpet, untouched.
- `PolarPlot`: what `polar_plot` passes to plotly, for both copies of the code.
  The library copy (`src/lib/polar_plot.py`) scales the y range by 1.15 and the
  axis-title annotation by 0.8 of the largest wind speed. The older command
  copy (`src/client_commands/ship/postprocessing.py`) uses a 0.2 margin and a
  fixed annotation at (12, 12).
- `CsvExport`: the `--format csv` branch of `fuel_table`. Both copies of it are
  textually identical.
- `ShipCommands`: the fixed context columns, the default variable
  `"FC ME [ton/day]"` and the `--draft` choice. It also wires both renderers
  to these constants, after the DataFrame step.

Edge cases the code handles in ways a reader might not expect, each modelled as written:

- A constant column gets a contour step of exactly 0; there is no epsilon guard
  (`BandStepZeroIffConstant`).
- No error is raised when no output column is left; the selector is simply
  empty (`EmptySelectorAccepted`).
- The selector's active index is always 0, even when the default column is not
  the first output column (`ActiveButtonShowsDefaultIffFirst`).
- In the older copy, the annotation does not scale with the data
  (`LegacyAnnotationAboveRange`).
- A missing column is reported when it is looked up, in source statement order.
  A missing output column is never reported, because only existing columns are
  iterated.
- On a DataFrame with no rows, when the default column is not TWS, the two
  copies raise on different columns. The library copy takes `max` of the wind
  speeds first; the older copy takes `min` of the default column first
  (`EmptyFrameErrorsDiffer`). With TWS as the default column both raise on TWS.

## Model

| member | source | states |
|---|---|---|
| FuelTable.DataFrame | src/cli/commands/ship/postprocessing.py:81 | building the DataFrame succeeds exactly when all columns have the same length, keeps the columns unchanged, and otherwise raises the equal-length `ValueError` |
| FuelTable.Lookup | src/lib/polar_plot.py:7-9 | `fuel_table[name]` succeeds exactly when a column of that name exists and then returns that column's values; otherwise it raises `KeyError(name)` |
| FuelTable.Names | src/lib/polar_plot.py:127 | `fuel_table.columns` (and `keys()` in the CSV branch): one name per column, the i-th name being the i-th column's |
| FuelTable.LookupFindsUniqueColumn | src/lib/polar_plot.py:127-131 | with distinct column names, looking up the i-th column's name yields the i-th column |
| FuelTable.Min | src/lib/polar_plot.py:139 | `min` of a non-empty column is one of its values and no greater than any value |
| FuelTable.Max | src/lib/polar_plot.py:11 | `max` of a non-empty column is one of its values and no smaller than any value |
| FuelTable.MinEqualsMaxIffConstant | src/lib/polar_plot.py:139-141 | a column's minimum equals its maximum exactly when all its values are equal |
| VariableOptions.BandOf | src/lib/polar_plot.py:139-141 | band start and end are values of the column bounding all its values, so start <= end; 180 steps of size span end - start, and size >= 0 |
| VariableOptions.BandStepZeroIffConstant | src/lib/polar_plot.py:141 | the step is zero exactly for a constant column and positive otherwise: no guard against a zero step |
| VariableOptions.OptionFor | src/lib/polar_plot.py:133-174 | the button for a non-empty column selects it: labelled with the column name, method `restyle`, z of traces 0 and 1 set to the column, banded contours on trace 0 with the column's band, trace 1 with `coloring='none'` and `showlabels=True`, line width 0 on trace 0 and 1 on trace 1 (smoothing 1 on both), a colour-bar title equal to the label on trace 0 only, and None everywhere on trace 2 |
| VariableOptions.SelectsColumnDeterminesOption | src/lib/polar_plot.py:133-174 | those promises leave no freedom: a button that selects a column is exactly the button built for it |
| VariableOptions.Eligible | src/lib/polar_plot.py:127-129 | the output columns: at most as many as the table's columns, and a column is among them exactly when it is in the table and its name is not a context column |
| VariableOptions.EligibleAppend | src/lib/polar_plot.py:127-129 | filtering commutes with concatenation, so output columns keep table order |
| VariableOptions.GetVariableOptions | src/lib/polar_plot.py:125-177 | succeeds exactly when every output column is non-empty, and then yields one button per output column, position by position. Otherwise it raises on the first empty output column in table order |
| VariableOptions.OptionLabelsAreOutputColumns | src/lib/polar_plot.py:127-176 | the button labels are exactly the output-column names in table order; no label is a context column, and there are at most as many buttons as columns |
| VariableOptions.OutputColumnHasOption | src/client_commands/ship/postprocessing.py:199-251 | every non-context column of the table has a button selecting it (the older copy of the same function) |
| PolarPlot.ScaledRangeFits | src/lib/polar_plot.py:76-102 | in the library layout (range [-1.15 m, 1.15 m], title at (0.8 m, 0.8 m) for the largest radius m), the range is symmetric and holds every non-negative radius, and it holds the title exactly when m >= 0 |
| PolarPlot.MarginRangeFits | src/client_commands/ship/postprocessing.py:177 | in the older layout (range [-m-0.2, m+0.2]), the range is symmetric and holds every non-negative radius |
| PolarPlot.Assemble | src/lib/polar_plot.py:7-37 | the figure content both copies share, for a plottable table: the ship name as title, angles from the TWA column and radii from the TWS column, heights from the default column (non-empty) with that column's band and its name as colour-bar title, and the selector buttons `get_variable_options` returns with active index 0 (:110-119) |
| PolarPlot.Rescaled | src/lib/polar_plot.py:76-102 | the library layout (:76-77, :102): the y range becomes [-1.15 m, 1.15 m] and the title (0.8 m, 0.8 m) for the largest radius m; every other field is unchanged |
| PolarPlot.Widened | src/client_commands/ship/postprocessing.py:151-177 | the older layout (:151-152, :177): the y range becomes [-m-0.2, m+0.2] and the title (12, 12); every other field is unchanged |
| PolarPlot.Fault | src/lib/polar_plot.py:7-110 | the first error `polar_plot` raises, for either copy. There is none exactly when the table is plottable, and every error names an absent or empty column. The lookups fail in the order TWA, TWS, default column. Next comes `EmptyColumn(TWS)` before `EmptyColumn(default)` in the library copy (`max` at :11, `min` at :28). The older copy checks the default column first (`min` at src/client_commands/ship/postprocessing.py:103, `max` at :177). The selector's error comes last |
| PolarPlot.PolarPlotChart | src/lib/polar_plot.py:5-122 | fails exactly when the table is not plottable, and then with the library-order `Fault`. On success the chart has the ship name as title and the coordinate columns on all traces. The default column is the height field, with its own band and colour-bar title. The selector is built from all output columns, with active index 0. The y range is exactly [-1.15 m, 1.15 m] for the largest wind speed m, and the annotation is at (0.8 m, 0.8 m). The range holds every non-negative radius, and the annotation lies inside it exactly when m >= 0 |
| PolarPlot.LegacyPolarPlotChart | src/client_commands/ship/postprocessing.py:84-195 | fails exactly when the table is not plottable, and then with the older-order `Fault`. On success it draws the same content as the library copy. The y range is exactly [-m-0.2, m+0.2] for the largest wind speed m, so it is symmetric and holds every non-negative radius. The annotation is fixed at (12, 12) |
| PolarPlot.EmptyFrameErrorsDiffer | src/client_commands/ship/postprocessing.py:84-105 | on a DataFrame with no rows, when the default column is not TWS, the library copy fails on the TWS column and the older copy on the default column. With TWS as default both fail on TWS |
| PolarPlot.InitialBandMatchesOption | src/lib/polar_plot.py:27-37 | when the default column is an output column, some button is labelled with it, with the same band and colour-bar title as the initial shading |
| PolarPlot.ActiveButtonShowsDefaultIffFirst | src/lib/polar_plot.py:112-119 | the highlighted button names the plotted column exactly when the default column is the first output column |
| PolarPlot.AnnotationInsideRange | src/lib/polar_plot.py:71-81 | with non-negative radii the axis-title annotation lies inside the y range, whatever the data scale |
| PolarPlot.LegacyAnnotationAboveRange | src/client_commands/ship/postprocessing.py:146-181 | in the older copy, the annotation's y = 12 lies strictly above the top of the y range whenever the largest wind speed is below 11.8 |
| PolarPlot.LegacyAnnotationMisplacedOnSample | src/client_commands/ship/postprocessing.py:151-152 | for the four-angle table with 5 m/s wind, the older copy places the title outside the chart and the library copy inside |
| PolarPlot.EmptySelectorAccepted | src/lib/polar_plot.py:110-119 | a table with only the two coordinate columns is drawn with an empty selector, and no error is raised. This works only because the default column chosen is the coordinate column TWS itself |
| CsvExport.Row | src/client_commands/ship/postprocessing.py:41 | a data line has one field per key: field k is `str` of key k's value at that row |
| CsvExport.FuelTableCsv | src/cli/commands/ship/postprocessing.py:35-40 | the first line is the keys joined by ", ". Line r+1 is row r's fields joined by ", ". Without error there is one data line per entry of the first column. It fails exactly when some column is shorter than the first or there are no keys (then only the empty header is echoed). A short column stops output at the first row it lacks and names the first key lacking it |
| CsvExport.Join | src/cli/commands/ship/postprocessing.py:38-40 | `', '.join`: empty for no parts; otherwise it begins with the first part, and its length is the parts' total length plus one separator between each neighbouring pair |
| CsvExport.JoinAppend | src/cli/commands/ship/postprocessing.py:38 | joining a concatenation is joining each part and gluing them with the separator |
| CsvExport.HeaderIsAmbiguous | src/client_commands/ship/postprocessing.py:37-41 | because nothing is quoted, a key containing ", " gives the same header as the two keys it splits into, wherever it stands among the other keys (first, last, alone or in between) |
| ShipCommands.DraftOption | src/cli/commands/ship/postprocessing.py:14-45 | `--draft` accepts exactly the three draft names and defaults to "design_draft"; anything else is rejected |
| ShipCommands.ContextColumnsFacts | src/cli/commands/ship/postprocessing.py:59-75 | TWA and TWS are context columns, and the default variable is not |
| ShipCommands.PolarPlotCommand | src/cli/commands/ship/postprocessing.py:59-83 | fails with the DataFrame's `ValueError` when columns differ in length. Otherwise it is the library renderer with the fixed context columns and default variable, plotting that variable under the ship's name. It succeeds exactly on plottable tables with columns of equal length |
| ShipCommands.LegacyPolarPlotCommand | src/client_commands/ship/postprocessing.py:60-195 | the same DataFrame step (:82), constants and success condition, drawn by the older renderer with the annotation fixed at (12, 12) |
| ShipCommands.RaggedTableRejected | src/client_commands/ship/postprocessing.py:82 | a table with TWA of length 2, TWS of length 1 and fuel consumption of length 3 is rejected by both commands before anything is drawn |
| ShipCommands.CommandSelectorExcludesContext | src/cli/commands/ship/postprocessing.py:59-83 | the command's selector never offers TWA, TWS or any other context column |
| ShipCommands.ScenarioOutputs | src/cli/commands/ship/postprocessing.py:59-66 | in the four-angle scenario, the fuel consumption is the only output column |
| ShipCommands.ScenarioChart | src/cli/commands/ship/postprocessing.py:59-83 | for four angles at 5 m/s with fuel consumption 10, 20, 10, 20, the chart is titled by the ship and banded from 10 to 20 in steps of 10/180. It has one button, for the fuel consumption |
| ShipCommands.CommandSelectorOffersDefault | src/cli/commands/ship/postprocessing.py:75-83 | with distinct column names, the command's selector offers the default variable, with the band of the initial shading |

## Left out

- The Cartesian projection `X = r sin θ`, `Y = r cos θ` is not modelled. It is trigonometry on floats, so `Chart` carries the angle and radius columns but not X and Y.
- Plotly figure construction, the fixed styling constants of the carpet trace, and `fig.show()` are not modelled; they are calls into a foreign library.
- The GraphQL transport, the query strings and the query variables (draft, speed, wave direction and height) are not modelled; they are network I/O. The table and ship name are inputs.
- Config files, token handling, login, dynamic module loading (`jsonify`), the JSON output branch and the logging-level change are not modelled; they are I/O or process-wide side effects.
- Click option parsing is not modelled, apart from the `--draft` choice. The `--format` choice only selects the JSON or CSV branch.
- Python's `str` of a value is the parameter `show`. Its exact float formatting is not modelled.
- NaN is not modelled; values are exact reals. A JSON `null` becomes NaN when `pd.DataFrame` is built. Python's built-in `min`/`max`, which the code applies to each column, do not skip NaN, and their result then depends on where the NaN sits.
- The DataFrame step does not check that column names are distinct. The service's JSON object cannot repeat a key, so they always are.
- FuelTable.Min: returns a least value, not necessarily the first occurrence `min` returns. The two are equal as values.
- CsvExport.FuelTableCsv: every JSON value is taken to be a number. Lists holding strings or nulls are not modelled.

## Findings

| source | as written | input that shows it | evidently intended | confidence | as-written member | corrected member |
|---|---|---|---|---|---|---|
| src/client_commands/ship/postprocessing.py:151-152 | the angular-axis title is placed at the fixed point (12, 12), while the y range is [-m-0.2, m+0.2] for the largest wind speed m | a table whose wind speeds are all 5 m/s: the range is [-5.2, 5.2], and the title at y = 12 falls outside it | place the title at 0.8 m along the diagonal, as the library copy does (src/lib/polar_plot.py:76-77), so it stays inside the range | medium; not executed | PolarPlot.LegacyAnnotationAboveRange | PolarPlot.AnnotationInsideRange |
