/** The selector buttons of the polar chart (`get_variable_options`): one
    "restyle" option per output column, each re-banding the two contour traces
    and leaving the third trace, the polar-axis carpet, alone. */
module VariableOptions {
  import opened Wrappers
  import opened FuelTable

  /** The traces of the chart: 0 the shaded contour, 1 the labelled contour
      lines, 2 the polar-axis carpet. */
  const TraceCount: nat := 3
  const PolarAxesTrace: nat := 2

  /** Contour banding: from the column's minimum to its maximum in 180 steps. */
  datatype Band = Band(start: real, end: real, size: real)

  const BandSteps: real := 180.0

  datatype Contours = Banded(band: Band) | Unfilled(coloring: string, showLabels: bool)
  datatype Colorbar = Colorbar(titleText: string, titleSide: string)
  datatype LineStyle = LineStyle(width: int, smoothing: int)

  /** The per-trace attribute lists of a plotly restyle; `None` at position k
      means that trace k keeps its current value. */
  datatype Restyle = Restyle(
    z: seq<Option<seq<real>>>,
    contours: seq<Option<Contours>>,
    colorbar: seq<Option<Colorbar>>,
    line: seq<Option<LineStyle>>)

  /** One selector button: its label, the plotly method and the restyle it applies. */
  datatype VariableOption = VariableOption(caption: string, action: string, restyle: Restyle)

  /** The band of a non-empty column: from its least to its greatest value,
      with step (greatest - least) / 180. */
  function BandOf(values: seq<real>): (b: Band)
    requires |values| > 0
    ensures b.start in values && b.end in values
    ensures forall v :: v in values ==> b.start <= v <= b.end
    ensures b.size * BandSteps == b.end - b.start
    ensures b.size >= 0.0
  {
    var lo := Min(values);
    var hi := Max(values);
    Band(lo, hi, (hi - lo) / BandSteps)
  }

  /** There is no guard for a flat column: its step is exactly zero. */
  lemma BandStepZeroIffConstant(values: seq<real>)
    requires |values| > 0
    ensures BandOf(values).size == 0.0 <==> Constant(values)
    ensures BandOf(values).size > 0.0 <==> !Constant(values)
  {
    MinEqualsMaxIffConstant(values);
  }

  /** Trace `k` is left unchanged by a restyle. */
  predicate Untouched(r: Restyle, k: nat) {
    && k < |r.z| && r.z[k].None?
    && k < |r.contours| && r.contours[k].None?
    && k < |r.colorbar| && r.colorbar[k].None?
    && k < |r.line| && r.line[k].None?
  }

  /** The restyle reads one entry per trace. */
  predicate CoversAllTraces(r: Restyle) {
    |r.z| == TraceCount && |r.contours| == TraceCount
    && |r.colorbar| == TraceCount && |r.line| == TraceCount
  }

  /** What every button promises: labelled by its column, re-banding trace 0
      from that column's least to greatest value, both contour traces showing
      the column, trace 1 drawn as labelled lines without colouring, line
      width 0 on trace 0 and 1 on trace 1 (both smoothed), the colour-bar
      title set on trace 0 only and equal to the label, and the polar axes
      untouched. */
  predicate SelectsColumn(o: VariableOption, c: Column) {
    && |c.values| > 0
    && o.caption == c.name
    && o.action == "restyle"
    && CoversAllTraces(o.restyle)
    && o.restyle.z[0] == Some(c.values) && o.restyle.z[1] == Some(c.values)
    && o.restyle.contours[0] == Some(Banded(BandOf(c.values)))
    && o.restyle.contours[1] == Some(Unfilled("none", true))
    && o.restyle.colorbar[0] == Some(Colorbar(o.caption, "right"))
    && o.restyle.colorbar[1].None?
    && o.restyle.line[0] == Some(LineStyle(0, 1)) && o.restyle.line[1] == Some(LineStyle(1, 1))
    && Untouched(o.restyle, PolarAxesTrace)
  }

  /** The button for one column. */
  function OptionFor(c: Column): (o: VariableOption)
    requires |c.values| > 0
    ensures SelectsColumn(o, c)
  {
    VariableOption(
      c.name,
      "restyle",
      Restyle(
        [Some(c.values), Some(c.values), None],
        [Some(Banded(BandOf(c.values))), Some(Unfilled("none", true)), None],
        [Some(Colorbar(c.name, "right")), None, None],
        [Some(LineStyle(0, 1)), Some(LineStyle(1, 1)), None]))
  }

  /** The promise pins the button down: the only button that selects a
      column is the one built for it. */
  lemma SelectsColumnDeterminesOption(o: VariableOption, c: Column)
    requires SelectsColumn(o, c)
    ensures o == OptionFor(c)
  {
    var r := o.restyle;
    var want := OptionFor(c).restyle;
    assert r.z == want.z;
    assert r.contours == want.contours;
    assert r.colorbar == want.colorbar;
    assert r.line == want.line;
  }

  /** The output columns: the table's columns not named in `sortingCols`, in table order. */
  function Eligible(table: Table, sortingCols: seq<string>): (r: Table)
    ensures |r| <= |table|
    ensures forall c :: c in r <==> c in table && c.name !in sortingCols
  {
    if |table| == 0 then []
    else
      var rest := Eligible(table[1..], sortingCols);
      assert forall c :: c in table <==> c == table[0] || c in table[1..];
      if table[0].name in sortingCols then rest else [table[0]] + rest
  }

  /** Filtering commutes with concatenation, so the output columns keep their
      relative table order. */
  lemma {:induction false} EligibleAppend(a: Table, b: Table, sortingCols: seq<string>)
    ensures Eligible(a + b, sortingCols) == Eligible(a, sortingCols) + Eligible(b, sortingCols)
  {
    if |a| == 0 {
      assert a + b == b;
    } else {
      assert (a + b)[0] == a[0];
      assert (a + b)[1..] == a[1..] + b;
      EligibleAppend(a[1..], b, sortingCols);
    }
  }

  /** All output columns can be banded. */
  predicate OutputsNonEmpty(table: Table, sortingCols: seq<string>) {
    forall c :: c in table && c.name !in sortingCols ==> |c.values| > 0
  }

  /** Column `i` is the first output column that cannot be banded. */
  predicate FirstEmptyOutput(table: Table, sortingCols: seq<string>, i: int) {
    && 0 <= i < |table|
    && table[i].name !in sortingCols
    && |table[i].values| == 0
    && OutputsNonEmpty(table[..i], sortingCols)
  }

  /** The error `min` raises on the first empty output column. */
  predicate RaisedOnFirstEmpty(table: Table, sortingCols: seq<string>, e: PlotError) {
    exists i :: 0 <= i < |table| && FirstEmptyOutput(table, sortingCols, i) && e == EmptyColumn(table[i].name)
  }

  /** `get_variable_options`: one button per output column, in table order, or
      the `ValueError` of `min` on the first empty output column. */
  function GetVariableOptions(table: Table, sortingCols: seq<string>): (r: Result<seq<VariableOption>, PlotError>)
    ensures r.Success? <==> OutputsNonEmpty(table, sortingCols)
    ensures r.Success? ==> ButtonsFor(r.value, Eligible(table, sortingCols))
    ensures r.Failure? ==> RaisedOnFirstEmpty(table, sortingCols, r.error)
  {
    if |table| == 0 then Success([])
    else
      var rest := GetVariableOptions(table[1..], sortingCols);
      OutputsNonEmptyCons(table, sortingCols);
      if table[0].name in sortingCols then
        if rest.Failure? then FirstEmptyShift(table, sortingCols, rest.error); rest
        else rest
      else if |table[0].values| == 0 then
        assert FirstEmptyOutput(table, sortingCols, 0) by { assert table[..0] == []; }
        Failure(EmptyColumn(table[0].name))
      else if rest.Failure? then
        FirstEmptyShift(table, sortingCols, rest.error);
        rest
      else
        Success([OptionFor(table[0])] + rest.value)
  }

  /** Each button selects the output column at the same position. */
  predicate ButtonsFor(options: seq<VariableOption>, cols: Table) {
    |options| == |cols| && forall i :: 0 <= i < |options| ==> SelectsColumn(options[i], cols[i])
  }

  lemma OutputsNonEmptyCons(table: Table, sortingCols: seq<string>)
    requires |table| > 0
    ensures OutputsNonEmpty(table, sortingCols) <==>
      (table[0].name !in sortingCols ==> |table[0].values| > 0) && OutputsNonEmpty(table[1..], sortingCols)
  {
    assert forall c :: c in table <==> c == table[0] || c in table[1..];
  }

  lemma FirstEmptyShift(table: Table, sortingCols: seq<string>, e: PlotError)
    requires |table| > 0
    requires table[0].name !in sortingCols ==> |table[0].values| > 0
    requires RaisedOnFirstEmpty(table[1..], sortingCols, e)
    ensures RaisedOnFirstEmpty(table, sortingCols, e)
  {
    var j :| 0 <= j < |table[1..]| && FirstEmptyOutput(table[1..], sortingCols, j) && e == EmptyColumn(table[1..][j].name);
    assert table[1..][j] == table[j + 1];
    assert table[..j + 1] == [table[0]] + table[1..][..j];
    OutputsNonEmptyCons(table[..j + 1], sortingCols);
    assert FirstEmptyOutput(table, sortingCols, j + 1);
  }

  /** The button labels, in order. */
  function Labels(options: seq<VariableOption>): (labels: seq<string>)
    ensures |labels| == |options|
    ensures forall i :: 0 <= i < |options| ==> labels[i] == options[i].caption
  {
    if |options| == 0 then [] else [options[0].caption] + Labels(options[1..])
  }

  /** The selector lists exactly the output columns, by name and in table
      order; no context column is ever offered. */
  lemma OptionLabelsAreOutputColumns(table: Table, sortingCols: seq<string>)
    requires GetVariableOptions(table, sortingCols).Success?
    ensures Labels(GetVariableOptions(table, sortingCols).value) == Names(Eligible(table, sortingCols))
    ensures forall l :: l in Labels(GetVariableOptions(table, sortingCols).value) ==> l !in sortingCols
    ensures |GetVariableOptions(table, sortingCols).value| <= |table|
  {
    var opts := GetVariableOptions(table, sortingCols).value;
    var cols := Eligible(table, sortingCols);
    forall l | l in Labels(opts)
      ensures l !in sortingCols
    {
      var i :| 0 <= i < |opts| && Labels(opts)[i] == l;
      assert cols[i] in cols;
    }
  }

  /** A column of the table that is not a context column has a button, and
      that button's band is the column's own band. */
  lemma {:induction false} OutputColumnHasOption(table: Table, sortingCols: seq<string>, c: Column)
    requires GetVariableOptions(table, sortingCols).Success?
    requires c in table && c.name !in sortingCols
    ensures var options := GetVariableOptions(table, sortingCols).value;
      exists k :: 0 <= k < |options| && SelectsColumn(options[k], c)
  {
    var cols := Eligible(table, sortingCols);
    assert c in cols;
    var k :| 0 <= k < |cols| && cols[k] == c;
    assert SelectsColumn(GetVariableOptions(table, sortingCols).value[k], cols[k]);
  }
}
