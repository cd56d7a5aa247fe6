/** The parameters `polar_plot` feeds to plotly, in the two copies of the
    code: the library version (range and annotation scale with the largest
    wind speed) and the older command version (fixed margin, fixed annotation).
    The plotly objects themselves and the Cartesian projection are not modelled. */
module PolarPlot {
  import opened Wrappers
  import opened FuelTable
  import opened VariableOptions

  /** The angular and radial coordinate columns the chart is drawn on. */
  const AngleColumn: string := "TWA [deg]"
  const SpeedColumn: string := "TWS [m/s]"

  datatype Point = Point(x: real, y: real)
  datatype AxisRange = AxisRange(lo: real, hi: real)

  /** What the figure is built from: the coordinates shared by all three
      traces, the height field and band of the two contour traces, the
      colour-bar title, the y-axis range, the position of the angular-axis
      title, and the selector with its active index. */
  datatype Chart = Chart(
    title: string,
    theta: seq<real>,
    radius: seq<real>,
    heights: seq<real>,
    band: Band,
    colorbarTitle: string,
    yRange: AxisRange,
    annotation: Point,
    active: nat,
    options: seq<VariableOption>)

  /** The conditions under which neither copy raises. */
  predicate Plottable(table: Table, defaultVariable: string, sortingCols: seq<string>) {
    && ColumnsPresent(table, defaultVariable)
    && !EmptyAt(table, SpeedColumn)
    && !EmptyAt(table, defaultVariable)
    && OutputsNonEmpty(table, sortingCols)
  }

  predicate Within(r: AxisRange, v: real) {
    r.lo <= v <= r.hi
  }

  /** The range shows every non-negative value of `radius`. */
  predicate HoldsNonNegative(r: AxisRange, radius: seq<real>) {
    forall v :: v in radius && v >= 0.0 ==> Within(r, v)
  }

  /** Every error names a column of the table that is absent or empty. */
  predicate ExplainsFailure(table: Table, e: PlotError) {
    match e
    case MissingColumn(n) => n !in Names(table)
    case EmptyColumn(n) => exists i :: 0 <= i < |table| && table[i].name == n && |table[i].values| == 0
    case RaggedColumns => !SameLength(table)
  }

  /** The three columns `polar_plot` reads are all present. */
  predicate ColumnsPresent(table: Table, defaultVariable: string) {
    && Lookup(table, AngleColumn).Success?
    && Lookup(table, SpeedColumn).Success?
    && Lookup(table, defaultVariable).Success?
  }

  /** The column called `n` exists and has no rows. */
  predicate EmptyAt(table: Table, n: string) {
    Lookup(table, n).Success? && |Lookup(table, n).value| == 0
  }

  /** What both copies draw: the ship name as title, the coordinate columns
      on all traces, the default column as height field with its own band and
      colour-bar title, the selector built from every output column, and the
      selector's active index fixed at 0 whatever the default column is. */
  predicate DrawnFrom(chart: Chart, table: Table, name: string, defaultVariable: string, sortingCols: seq<string>) {
    && Lookup(table, AngleColumn) == Success(chart.theta)
    && Lookup(table, SpeedColumn) == Success(chart.radius)
    && Lookup(table, defaultVariable) == Success(chart.heights)
    && GetVariableOptions(table, sortingCols) == Success(chart.options)
    && chart.title == name
    && |chart.heights| > 0
    && chart.band == BandOf(chart.heights)
    && chart.colorbarTitle == defaultVariable
    && chart.active == 0
  }

  /** The figure of a plottable table before a copy places its y range and
      annotation, which are left at the origin here. */
  function Assemble(table: Table, name: string, defaultVariable: string, sortingCols: seq<string>): (chart: Chart)
    requires Plottable(table, defaultVariable, sortingCols)
    ensures DrawnFrom(chart, table, name, defaultVariable, sortingCols)
  {
    var heights := Lookup(table, defaultVariable).value;
    Chart(
      name,
      Lookup(table, AngleColumn).value,
      Lookup(table, SpeedColumn).value,
      heights,
      BandOf(heights),
      defaultVariable,
      AxisRange(0.0, 0.0),
      Point(0.0, 0.0),
      0,
      GetVariableOptions(table, sortingCols).value)
  }

  /** The error `min` raises on the first empty output column names an empty column. */
  lemma OptionsFailureExplained(table: Table, sortingCols: seq<string>)
    requires GetVariableOptions(table, sortingCols).Failure?
    ensures ExplainsFailure(table, GetVariableOptions(table, sortingCols).error)
  {
  }

  /** The library copy's layout: the y range is the largest radius `m`
      scaled by 1.15 either way, and the angular-axis title sits at
      (0.8 m, 0.8 m). */
  predicate ScaledLayout(chart: Chart) {
    && |chart.radius| > 0
    && var m := Max(chart.radius);
       chart.yRange == AxisRange(-1.15 * m, 1.15 * m) && chart.annotation == Point(0.8 * m, 0.8 * m)
  }

  /** The older copy's layout: the y range is the largest radius `m` widened
      by 0.2 either way, and the angular-axis title sits at (12, 12). */
  predicate MarginLayout(chart: Chart) {
    && |chart.radius| > 0
    && var m := Max(chart.radius);
       chart.yRange == AxisRange(-m - 0.2, m + 0.2) && chart.annotation == Point(12.0, 12.0)
  }

  /** The scaled range is symmetric, shows every non-negative radius, and
      holds the annotation exactly when the largest radius is non-negative. */
  lemma ScaledRangeFits(chart: Chart)
    requires ScaledLayout(chart)
    ensures chart.yRange.lo == -chart.yRange.hi
    ensures HoldsNonNegative(chart.yRange, chart.radius)
    ensures Within(chart.yRange, chart.annotation.x) && Within(chart.yRange, chart.annotation.y)
            <==> Max(chart.radius) >= 0.0
  {
  }

  /** The widened range is symmetric and shows every non-negative radius. */
  lemma MarginRangeFits(chart: Chart)
    requires MarginLayout(chart)
    ensures chart.yRange.lo == -chart.yRange.hi
    ensures HoldsNonNegative(chart.yRange, chart.radius)
  {
  }

  /** `base` with the library copy's layout; nothing else changes. */
  function Rescaled(base: Chart): (chart: Chart)
    requires |base.radius| > 0
    ensures chart.(yRange := base.yRange, annotation := base.annotation) == base
    ensures ScaledLayout(chart)
  {
    var m := Max(base.radius);
    base.(yRange := AxisRange(-1.15 * m, 1.15 * m), annotation := Point(0.8 * m, 0.8 * m))
  }

  /** `base` with the older copy's layout; nothing else changes. */
  function Widened(base: Chart): (chart: Chart)
    requires |base.radius| > 0
    ensures chart.(yRange := base.yRange, annotation := base.annotation) == base
    ensures MarginLayout(chart)
  {
    var m := Max(base.radius);
    base.(yRange := AxisRange(-m - 0.2, m + 0.2), annotation := Point(12.0, 12.0))
  }

  /** The first exception `polar_plot` raises, if any. Both copies look up
      the angle, speed and default columns in that order; the library copy
      then takes `max` of the speeds before `min` of the default column, the
      older copy the other way round (`speedFirst` is false); the selector's
      own `min` comes last. */
  function Fault(table: Table, defaultVariable: string, sortingCols: seq<string>, speedFirst: bool)
    : (e: Option<PlotError>)
    ensures e.None? <==> Plottable(table, defaultVariable, sortingCols)
    ensures e.Some? ==> ExplainsFailure(table, e.value)
    ensures Lookup(table, AngleColumn).Failure? ==> e == Some(MissingColumn(AngleColumn))
    ensures Lookup(table, AngleColumn).Success? && Lookup(table, SpeedColumn).Failure?
      ==> e == Some(MissingColumn(SpeedColumn))
    ensures (Lookup(table, AngleColumn).Success? && Lookup(table, SpeedColumn).Success?
             && Lookup(table, defaultVariable).Failure?) ==> e == Some(MissingColumn(defaultVariable))
    ensures (ColumnsPresent(table, defaultVariable) && EmptyAt(table, SpeedColumn)
             && (speedFirst || !EmptyAt(table, defaultVariable))) ==> e == Some(EmptyColumn(SpeedColumn))
    ensures (ColumnsPresent(table, defaultVariable) && EmptyAt(table, defaultVariable)
             && (!speedFirst || !EmptyAt(table, SpeedColumn))) ==> e == Some(EmptyColumn(defaultVariable))
    ensures (ColumnsPresent(table, defaultVariable) && !EmptyAt(table, SpeedColumn) && !EmptyAt(table, defaultVariable)
             && GetVariableOptions(table, sortingCols).Failure?)
      ==> e == Some(GetVariableOptions(table, sortingCols).error)
  {
    if Lookup(table, AngleColumn).Failure? then Some(MissingColumn(AngleColumn))
    else if Lookup(table, SpeedColumn).Failure? then Some(MissingColumn(SpeedColumn))
    else if Lookup(table, defaultVariable).Failure? then Some(MissingColumn(defaultVariable))
    else if speedFirst && EmptyAt(table, SpeedColumn) then Some(EmptyColumn(SpeedColumn))
    else if EmptyAt(table, defaultVariable) then Some(EmptyColumn(defaultVariable))
    else if EmptyAt(table, SpeedColumn) then Some(EmptyColumn(SpeedColumn))
    else if GetVariableOptions(table, sortingCols).Failure? then
      OptionsFailureExplained(table, sortingCols);
      Some(GetVariableOptions(table, sortingCols).error)
    else None
  }

  /** The polar chart of the library copy: the y range is the largest wind
      speed scaled by 1.15 either way and the angular-axis title sits at 0.8
      of it along the diagonal. */
  function PolarPlotChart(table: Table, name: string, defaultVariable: string, sortingCols: seq<string>)
    : (r: Result<Chart, PlotError>)
    ensures r.Success? <==> Plottable(table, defaultVariable, sortingCols)
    ensures r.Failure? ==> Fault(table, defaultVariable, sortingCols, true) == Some(r.error)
    ensures r.Success? ==> DrawnFrom(r.value, table, name, defaultVariable, sortingCols)
    ensures r.Success? ==> ScaledLayout(r.value)
    ensures r.Success? ==> r.value.yRange.lo == -r.value.yRange.hi
    ensures r.Success? ==> HoldsNonNegative(r.value.yRange, r.value.radius)
    ensures r.Success? ==>
      (Within(r.value.yRange, r.value.annotation.x) && Within(r.value.yRange, r.value.annotation.y)
       <==> Max(r.value.radius) >= 0.0)
  {
    if Plottable(table, defaultVariable, sortingCols) then
      var chart := Rescaled(Assemble(table, name, defaultVariable, sortingCols));
      ScaledRangeFits(chart);
      Success(chart)
    else
      Failure(Fault(table, defaultVariable, sortingCols, true).value)
  }

  /** The polar chart of the older command copy: the y range is the largest
      wind speed plus a fixed 0.2 margin either way and the angular-axis title
      sits at the fixed point (12, 12). */
  function LegacyPolarPlotChart(table: Table, name: string, defaultVariable: string, sortingCols: seq<string>)
    : (r: Result<Chart, PlotError>)
    ensures r.Success? <==> Plottable(table, defaultVariable, sortingCols)
    ensures r.Failure? ==> Fault(table, defaultVariable, sortingCols, false) == Some(r.error)
    ensures r.Success? ==> DrawnFrom(r.value, table, name, defaultVariable, sortingCols)
    ensures r.Success? ==> MarginLayout(r.value)
    ensures r.Success? ==> r.value.yRange.lo == -r.value.yRange.hi
    ensures r.Success? ==> HoldsNonNegative(r.value.yRange, r.value.radius)
  {
    if Plottable(table, defaultVariable, sortingCols) then
      var chart := Widened(Assemble(table, name, defaultVariable, sortingCols));
      MarginRangeFits(chart);
      Success(chart)
    else
      Failure(Fault(table, defaultVariable, sortingCols, false).value)
  }

  /** The shading drawn first for the default column is the band its own
      selector button would apply. */
  lemma {:induction false} InitialBandMatchesOption(table: Table, name: string, defaultVariable: string, sortingCols: seq<string>)
    requires PolarPlotChart(table, name, defaultVariable, sortingCols).Success?
    requires DistinctNames(table)
    requires defaultVariable !in sortingCols
    ensures var chart := PolarPlotChart(table, name, defaultVariable, sortingCols).value;
      exists k ::
        && 0 <= k < |chart.options|
        && chart.options[k].caption == defaultVariable
        && chart.options[k].restyle.contours[0] == Some(Banded(chart.band))
        && chart.options[k].restyle.colorbar[0] == Some(Colorbar(chart.colorbarTitle, "right"))
  {
    var chart := PolarPlotChart(table, name, defaultVariable, sortingCols).value;
    var i :| 0 <= i < |table| && table[i].name == defaultVariable;
    LookupFindsUniqueColumn(table, i);
    assert table[i] in table;
    OutputColumnHasOption(table, sortingCols, table[i]);
  }

  /** The selector always highlights its first button, so it agrees with the
      plotted column exactly when the default column is the first output column. */
  lemma ActiveButtonShowsDefaultIffFirst(table: Table, name: string, defaultVariable: string, sortingCols: seq<string>)
    requires PolarPlotChart(table, name, defaultVariable, sortingCols).Success?
    requires |PolarPlotChart(table, name, defaultVariable, sortingCols).value.options| > 0
    ensures var chart := PolarPlotChart(table, name, defaultVariable, sortingCols).value;
      chart.options[chart.active].caption == chart.colorbarTitle
      <==> Eligible(table, sortingCols)[0].name == defaultVariable
  {
  }

  /** As written in the older copy: the angular-axis title at (12, 12) lies
      above the visible y range whenever the largest wind speed is below 11.8. */
  lemma LegacyAnnotationAboveRange(table: Table, name: string, defaultVariable: string, sortingCols: seq<string>)
    requires LegacyPolarPlotChart(table, name, defaultVariable, sortingCols).Success?
    requires Max(LegacyPolarPlotChart(table, name, defaultVariable, sortingCols).value.radius) < 11.8
    ensures var chart := LegacyPolarPlotChart(table, name, defaultVariable, sortingCols).value;
      chart.annotation.y > chart.yRange.hi
  {
  }

  /** Four wind angles at 5 m/s with a fuel consumption alternating 10 and 20. */
  function ScenarioTable(): Table {
    [ Column(AngleColumn, [0.0, 90.0, 180.0, 270.0]),
      Column(SpeedColumn, [5.0, 5.0, 5.0, 5.0]),
      Column("FC ME [ton/day]", [10.0, 20.0, 10.0, 20.0]) ]
  }

  /** Every column the commands read is present in the scenario. */
  lemma ScenarioLookups()
    ensures Lookup(ScenarioTable(), AngleColumn).Success?
    ensures Lookup(ScenarioTable(), SpeedColumn) == Success([5.0, 5.0, 5.0, 5.0])
    ensures Lookup(ScenarioTable(), "FC ME [ton/day]") == Success([10.0, 20.0, 10.0, 20.0])
  {
    var t := ScenarioTable();
    assert DistinctNames(t) by {
      assert AngleColumn[2] != SpeedColumn[2];
      assert AngleColumn[0] != "FC ME [ton/day]"[0];
      assert SpeedColumn[0] != "FC ME [ton/day]"[0];
    }
    LookupFindsUniqueColumn(t, 0);
    LookupFindsUniqueColumn(t, 1);
    LookupFindsUniqueColumn(t, 2);
  }

  /** The scenario can be plotted, and every wind speed in it is 5 m/s. */
  lemma ScenarioPlottable()
    ensures Plottable(ScenarioTable(), "FC ME [ton/day]", [AngleColumn, SpeedColumn])
    ensures Lookup(ScenarioTable(), SpeedColumn) == Success([5.0, 5.0, 5.0, 5.0])
    ensures Max([5.0, 5.0, 5.0, 5.0]) == 5.0
  {
    var t := ScenarioTable();
    ScenarioLookups();
    assert forall c :: c in t ==> |c.values| == 4;
    assert forall v :: v in [5.0, 5.0, 5.0, 5.0] ==> v == 5.0;
  }

  /** The older copy draws the scenario with its angular-axis title outside
      the chart, where the library copy keeps it inside. */
  lemma {:induction false} LegacyAnnotationMisplacedOnSample()
    ensures var legacy := LegacyPolarPlotChart(ScenarioTable(), "ship", "FC ME [ton/day]", [AngleColumn, SpeedColumn]);
      legacy.Success? && !Within(legacy.value.yRange, legacy.value.annotation.y)
    ensures var chart := PolarPlotChart(ScenarioTable(), "ship", "FC ME [ton/day]", [AngleColumn, SpeedColumn]);
      chart.Success? && Within(chart.value.yRange, chart.value.annotation.y)
  {
    ScenarioPlottable();
    var legacy := LegacyPolarPlotChart(ScenarioTable(), "ship", "FC ME [ton/day]", [AngleColumn, SpeedColumn]);
    assert legacy.value.radius == [5.0, 5.0, 5.0, 5.0];
    var chart := PolarPlotChart(ScenarioTable(), "ship", "FC ME [ton/day]", [AngleColumn, SpeedColumn]);
    assert chart.value.radius == [5.0, 5.0, 5.0, 5.0];
  }

  /** On a DataFrame with no rows the two copies raise on different columns:
      the library copy on the speeds (`max`), the older copy on the default
      column (`min`). */
  lemma EmptyFrameErrorsDiffer(table: Table, name: string, defaultVariable: string, sortingCols: seq<string>)
    requires SameLength(table)
    requires ColumnsPresent(table, defaultVariable)
    requires EmptyAt(table, SpeedColumn)
    requires defaultVariable != SpeedColumn
    ensures PolarPlotChart(table, name, defaultVariable, sortingCols) == Failure(EmptyColumn(SpeedColumn))
    ensures LegacyPolarPlotChart(table, name, defaultVariable, sortingCols) == Failure(EmptyColumn(defaultVariable))
  {
    var i :| 0 <= i < |table| && table[i].name == SpeedColumn && table[i].values == Lookup(table, SpeedColumn).value;
    var j :| 0 <= j < |table| && table[j].name == defaultVariable && table[j].values == Lookup(table, defaultVariable).value;
    assert |table[j].values| == |table[i].values|;
    assert EmptyAt(table, defaultVariable);
  }

  /** With every radius non-negative, the library copy keeps the angular-axis
      title inside the visible y range, whatever the data's scale. */
  lemma AnnotationInsideRange(table: Table, name: string, defaultVariable: string, sortingCols: seq<string>)
    requires PolarPlotChart(table, name, defaultVariable, sortingCols).Success?
    requires forall v :: v in PolarPlotChart(table, name, defaultVariable, sortingCols).value.radius ==> v >= 0.0
    ensures var chart := PolarPlotChart(table, name, defaultVariable, sortingCols).value;
      Within(chart.yRange, chart.annotation.x) && Within(chart.yRange, chart.annotation.y)
  {
    var chart := PolarPlotChart(table, name, defaultVariable, sortingCols).value;
    assert Max(chart.radius) in chart.radius;
  }

  /** No error is raised when no column is left for the selector: the chart
      is drawn with an empty selector. This table can be drawn only because
      its default column is itself a coordinate column, the wind speed. */
  lemma {:induction false} EmptySelectorAccepted()
    ensures var chart := PolarPlotChart([Column(AngleColumn, [0.0]), Column(SpeedColumn, [5.0])], "ship",
                                        SpeedColumn, [AngleColumn, SpeedColumn]);
      chart.Success? && chart.value.options == []
  {
    var t := [Column(AngleColumn, [0.0]), Column(SpeedColumn, [5.0])];
    var sc := [AngleColumn, SpeedColumn];
    assert Names(t) == [AngleColumn, SpeedColumn];
    LookupFindsUniqueColumn(t, 1);
    assert OutputsNonEmpty(t, sc);
    assert Eligible(t, sc) == [] by {
      assert t[1..][1..] == [];
    }
  }
}
