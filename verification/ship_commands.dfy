/** The `ship` commands' fixed choices: the context columns handed to the
    renderer, the default plotted variable and the draft option. */
module ShipCommands {
  import opened Wrappers
  import opened FuelTable
  import opened VariableOptions
  import opened PolarPlot

  /** The coordinate and operating-condition columns; never offered in the selector. */
  const SortingCols: seq<string> := [
    "Draft [m]",
    "Speed [m/s]",
    AngleColumn,
    SpeedColumn,
    "Wave direction [deg]",
    "Wave height Hs [m]"
  ]

  const DefaultVariable: string := "FC ME [ton/day]"

  const DraftNames: seq<string> := ["scantling_draft", "design_draft", "ballast_draft"]

  datatype CliError = InvalidChoice(given: string)

  /** The `--draft` option: one of the three draft names, "design_draft" when omitted. */
  function DraftOption(given: Option<string>): (r: Result<string, CliError>)
    ensures r.Success? ==> r.value in DraftNames
    ensures given.None? ==> r == Success("design_draft")
    ensures given.Some? ==> (r.Success? <==> given.value in DraftNames)
    ensures given.Some? && r.Success? ==> r.value == given.value
    ensures r.Failure? ==> r.error == InvalidChoice(given.value)
  {
    match given
    case None => Success(DraftNames[1])
    case Some(d) => if d in DraftNames then Success(d) else Failure(InvalidChoice(d))
  }

  /** The `polar_plot` command: the service's table made into a DataFrame,
      then drawn by the library renderer with the fixed context columns and
      default variable. */
  function PolarPlotCommand(table: Table, name: string): (r: Result<Chart, PlotError>)
    ensures r.Success? <==> SameLength(table) && Plottable(table, DefaultVariable, SortingCols)
    ensures !SameLength(table) ==> r == Failure(RaggedColumns)
    ensures SameLength(table) ==> r == PolarPlotChart(table, name, DefaultVariable, SortingCols)
    ensures r.Success? ==> r.value.colorbarTitle == DefaultVariable && r.value.title == name
  {
    match DataFrame(table)
    case Failure(e) => Failure(e)
    case Success(frame) => PolarPlotChart(frame, name, DefaultVariable, SortingCols)
  }

  /** The older `polar_plot` command: the same DataFrame step, fixed columns
      and default variable, drawn by the older copy of the renderer. */
  function LegacyPolarPlotCommand(table: Table, name: string): (r: Result<Chart, PlotError>)
    ensures r.Success? <==> SameLength(table) && Plottable(table, DefaultVariable, SortingCols)
    ensures !SameLength(table) ==> r == Failure(RaggedColumns)
    ensures SameLength(table) ==> r == LegacyPolarPlotChart(table, name, DefaultVariable, SortingCols)
    ensures r.Success? ==> r.value.colorbarTitle == DefaultVariable && r.value.annotation == Point(12.0, 12.0)
  {
    match DataFrame(table)
    case Failure(e) => Failure(e)
    case Success(frame) => LegacyPolarPlotChart(frame, name, DefaultVariable, SortingCols)
  }

  /** The coordinate columns are among the context columns, and the default variable is not. */
  lemma ContextColumnsFacts()
    ensures AngleColumn in SortingCols && SpeedColumn in SortingCols
    ensures DefaultVariable !in SortingCols
  {
    assert SortingCols[2] == AngleColumn && SortingCols[3] == SpeedColumn;
    assert DefaultVariable[0] == 'F';
    forall i | 0 <= i < |SortingCols|
      ensures SortingCols[i] != DefaultVariable
    {
      assert SortingCols[i][0] != 'F';
    }
  }

  /** The command's selector never offers the coordinate or context columns. */
  lemma CommandSelectorExcludesContext(table: Table, name: string)
    requires PolarPlotCommand(table, name).Success?
    ensures var chart := PolarPlotCommand(table, name).value;
      forall k :: 0 <= k < |chart.options| ==>
        && chart.options[k].caption !in SortingCols
        && chart.options[k].caption != AngleColumn
        && chart.options[k].caption != SpeedColumn
  {
    var chart := PolarPlotCommand(table, name).value;
    ContextColumnsFacts();
    OptionLabelsAreOutputColumns(table, SortingCols);
    forall k | 0 <= k < |chart.options|
      ensures chart.options[k].caption !in SortingCols
    {
      assert chart.options[k].caption == Labels(chart.options)[k];
    }
  }

  /** The command always offers the default variable, and its initial shading
      is that button's band. */
  lemma CommandSelectorOffersDefault(table: Table, name: string)
    requires PolarPlotCommand(table, name).Success?
    requires DistinctNames(table)
    ensures var chart := PolarPlotCommand(table, name).value;
      exists k :: 0 <= k < |chart.options| && chart.options[k].caption == DefaultVariable
        && chart.options[k].restyle.contours[0] == Some(Banded(chart.band))
  {
    ContextColumnsFacts();
    InitialBandMatchesOption(table, name, DefaultVariable, SortingCols);
  }

  /** The scenario's fuel consumption is its only output column. */
  lemma ScenarioOutputs()
    ensures Eligible(ScenarioTable(), SortingCols) == [ScenarioTable()[2]]
    ensures OutputsNonEmpty(ScenarioTable(), SortingCols)
  {
    var t := ScenarioTable();
    ContextColumnsFacts();
    assert t[1..][1..][1..] == [];
    assert t[1..][1..] == [t[2]];
    assert Eligible(t[1..][1..], SortingCols) == [t[2]];
    assert Eligible(t[1..], SortingCols) == [t[2]];
  }

  /** The scenario's columns all have four rows, so it makes a DataFrame. */
  lemma ScenarioIsFrame()
    ensures SameLength(ScenarioTable())
  {
    var t := ScenarioTable();
    assert forall i :: 0 <= i < |t| ==> |t[i].values| == 4;
  }

  /** The scenario's fuel consumption is banded from 10 to 20 in steps of 10/180. */
  lemma ScenarioBand()
    ensures BandOf([10.0, 20.0, 10.0, 20.0]) == Band(10.0, 20.0, 10.0 / 180.0)
  {
    var z := [10.0, 20.0, 10.0, 20.0];
    assert Min(z) == 10.0 by { assert forall v :: v in z ==> v >= 10.0; }
    assert Max(z) == 20.0 by { assert forall v :: v in z ==> v <= 20.0; }
  }

  /** The command draws the scenario titled by the ship, banded from 10 to 20
      in steps of 10/180, with a single button for the fuel consumption. */
  lemma ScenarioChart()
    ensures var r := PolarPlotCommand(ScenarioTable(), "TestShip");
      && r.Success?
      && r.value.title == "TestShip"
      && r.value.band == Band(10.0, 20.0, 10.0 / 180.0)
      && |r.value.options| == 1
      && r.value.options[0].caption == DefaultVariable
  {
    ScenarioIsFrame();
    ScenarioOutputs();
    ScenarioLookups();
    ScenarioBand();
  }

  /** A table whose columns differ in length is rejected by `pd.DataFrame`
      before anything is drawn, in both commands. */
  lemma RaggedTableRejected()
    ensures var t := [ Column(AngleColumn, [0.0, 90.0]), Column(SpeedColumn, [5.0]),
                       Column(DefaultVariable, [10.0, 20.0, 30.0]) ];
      && PolarPlotCommand(t, "ship") == Failure(RaggedColumns)
      && LegacyPolarPlotCommand(t, "ship") == Failure(RaggedColumns)
  {
    var t := [ Column(AngleColumn, [0.0, 90.0]), Column(SpeedColumn, [5.0]),
               Column(DefaultVariable, [10.0, 20.0, 30.0]) ];
    assert |t[0].values| != |t[1].values|;
  }
}
