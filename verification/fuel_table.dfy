/** A fuel table as the plotting code sees it: an ordered sequence of named
    numeric columns (a pandas DataFrame built from the service's JSON object,
    whose keys are distinct). Floating-point values are idealised as reals. */
module FuelTable {
  import opened Wrappers

  datatype Column = Column(name: string, values: seq<real>)

  type Table = seq<Column>

  /** The exceptions the plotting code can raise while reading a table:
      a `KeyError` for an absent column, a `ValueError` from `min`/`max`
      of an empty column, and the `ValueError` of `pd.DataFrame` when the
      columns differ in length. */
  datatype PlotError = MissingColumn(column: string) | EmptyColumn(column: string) | RaggedColumns

  /** The column names in table order (`DataFrame.columns`, `dict.keys()`). */
  function Names(table: Table): (names: seq<string>)
    ensures |names| == |table|
    ensures forall i :: 0 <= i < |table| ==> names[i] == table[i].name
  {
    if |table| == 0 then [] else [table[0].name] + Names(table[1..])
  }

  /** Keys of a Python dict / columns of a DataFrame are distinct. */
  predicate DistinctNames(table: Table) {
    forall i, j :: 0 <= i < j < |table| ==> table[i].name != table[j].name
  }

  /** All columns have the same number of rows, as in any DataFrame. */
  predicate SameLength(table: Table) {
    forall i, j :: 0 <= i < |table| && 0 <= j < |table| ==> |table[i].values| == |table[j].values|
  }

  /** `pd.DataFrame(fuel_table)` of the service's JSON object: the same
      columns, or a `ValueError` when two of them differ in length. */
  function DataFrame(table: Table): (r: Result<Table, PlotError>)
    ensures r.Success? <==> SameLength(table)
    ensures r.Success? ==> r.value == table
    ensures r.Failure? ==> r.error == RaggedColumns
  {
    if forall i :: 0 <= i < |table| ==> |table[i].values| == |table[0].values| then Success(table)
    else Failure(RaggedColumns)
  }

  /** `fuel_table[name]`: the column called `name`, or a `KeyError`. */
  function Lookup(table: Table, name: string): (r: Result<seq<real>, PlotError>)
    ensures r.Success? <==> name in Names(table)
    ensures r.Failure? ==> r.error == MissingColumn(name)
    ensures r.Success? ==>
      exists i :: 0 <= i < |table| && table[i].name == name && table[i].values == r.value
  {
    if |table| == 0 then Failure(MissingColumn(name))
    else if table[0].name == name then Success(table[0].values)
    else
      var r := Lookup(table[1..], name);
      assert r.Success? ==> exists i :: 1 <= i < |table| && table[i].name == name && table[i].values == r.value by {
        if r.Success? {
          var j :| 0 <= j < |table[1..]| && table[1..][j].name == name && table[1..][j].values == r.value;
          assert table[j + 1] == table[1..][j];
        }
      }
      r
  }

  /** In a table with distinct names, the looked-up column is THE column with that name. */
  lemma {:induction false} LookupFindsUniqueColumn(table: Table, i: nat)
    requires DistinctNames(table)
    requires i < |table|
    ensures Lookup(table, table[i].name) == Success(table[i].values)
  {
    if i > 0 {
      assert table[0].name != table[i].name;
      assert table[1..][i - 1] == table[i];
      LookupFindsUniqueColumn(table[1..], i - 1);
    }
  }

  /** Python's `min` over a non-empty column: a member of the column no larger than any other. */
  function Min(s: seq<real>): (m: real)
    requires |s| > 0
    ensures m in s
    ensures forall v :: v in s ==> m <= v
  {
    if |s| == 1 then s[0]
    else
      var rest := Min(s[1..]);
      assert forall v :: v in s ==> v == s[0] || v in s[1..];
      if s[0] <= rest then s[0] else rest
  }

  /** Python's `max` over a non-empty column: a member of the column no smaller than any other. */
  function Max(s: seq<real>): (m: real)
    requires |s| > 0
    ensures m in s
    ensures forall v :: v in s ==> v <= m
  {
    if |s| == 1 then s[0]
    else
      var rest := Max(s[1..]);
      assert forall v :: v in s ==> v == s[0] || v in s[1..];
      if rest <= s[0] then s[0] else rest
  }

  /** A column whose values are all equal. */
  predicate Constant(s: seq<real>) {
    forall i, j :: 0 <= i < |s| && 0 <= j < |s| ==> s[i] == s[j]
  }

  lemma MinEqualsMaxIffConstant(s: seq<real>)
    requires |s| > 0
    ensures Min(s) == Max(s) <==> Constant(s)
  {
    if Min(s) == Max(s) {
      forall i, j | 0 <= i < |s| && 0 <= j < |s|
        ensures s[i] == s[j]
      {
        assert s[i] in s && s[j] in s;
      }
    }
    if Constant(s) {
      var lo := Min(s);
      var hi := Max(s);
      var a :| 0 <= a < |s| && s[a] == lo;
      var b :| 0 <= b < |s| && s[b] == hi;
    }
  }
}
