/** The `--format csv` branch of the `fuel_table` command: a header line with
    the keys, then one line per row of the first column, every field written
    with Python's `str` (here the parameter `show`) and joined by ", " without
    quoting. The table is the service's JSON object, so its keys are distinct
    and `fuel_table[key]` is the column at that key's position. */
module CsvExport {
  import opened Wrappers
  import opened FuelTable

  const Separator: string := ", "

  /** The number of characters in all `parts` together. */
  function TotalLength(parts: seq<string>): nat {
    if |parts| == 0 then 0 else |parts[0]| + TotalLength(parts[1..])
  }

  /** Python's `sep.join(parts)`: the parts in order, with one separator
      between each neighbouring pair and none at either end. */
  function Join(parts: seq<string>, sep: string): (s: string)
    ensures |parts| == 0 ==> s == ""
    ensures |parts| > 0 ==> |s| == TotalLength(parts) + (|parts| - 1) * |sep|
    ensures |parts| > 0 ==> parts[0] <= s
  {
    if |parts| == 0 then ""
    else if |parts| == 1 then parts[0]
    else parts[0] + sep + Join(parts[1..], sep)
  }

  /** The exceptions the branch raises: `keys[0]` of an empty table, or
      `fuel_table[key][row]` past the end of a short column (`IndexError`). */
  datatype CsvError = NoKeys | ShortColumn(key: string, row: nat)

  /** The lines echoed before the branch finishes or raises, and what it raised. */
  datatype CsvOutput = CsvOutput(lines: seq<string>, error: Option<CsvError>)

  /** Every column has an entry at `row`. */
  predicate HasRow(table: Table, row: nat) {
    forall k :: 0 <= k < |table| ==> row < |table[k].values|
  }

  /** Every column is at least as long as the first one. */
  predicate NoShorterThanFirst(table: Table) {
    |table| > 0 && forall k :: 0 <= k < |table| ==> |table[0].values| <= |table[k].values|
  }

  /** The fields of one data line: the `row`-th value of every key, in key order. */
  function Row(table: Table, row: nat, show: real -> string): (fields: seq<string>)
    requires HasRow(table, row)
    ensures |fields| == |table|
    ensures forall k :: 0 <= k < |table| ==> fields[k] == show(table[k].values[row])
  {
    seq(|table|, k requires 0 <= k < |table| => show(table[k].values[row]))
  }

  /** Column `k` is the first whose entry `row` is missing. */
  predicate FirstShortAt(table: Table, row: nat, k: int) {
    0 <= k < |table| && |table[k].values| <= row && forall j :: 0 <= j < k ==> row < |table[j].values|
  }

  method FuelTableCsv(table: Table, show: real -> string) returns (out: CsvOutput)
    ensures |out.lines| >= 1 && out.lines[0] == Join(Names(table), Separator)
    ensures forall r :: 1 <= r < |out.lines| ==>
      HasRow(table, r - 1) && out.lines[r] == Join(Row(table, r - 1, show), Separator)
    ensures out.error.None? <==> NoShorterThanFirst(table)
    ensures out.error.None? ==> |out.lines| == 1 + |table[0].values|
    ensures out.error == Some(NoKeys) <==> |table| == 0
    ensures |table| == 0 ==> |out.lines| == 1
    ensures out.error.Some? && out.error.value.ShortColumn? ==>
      var row := out.error.value.row;
      && row < |table[0].values|
      && |out.lines| == 1 + row
      && exists k :: FirstShortAt(table, row, k) && table[k].name == out.error.value.key
  {
    var header := Join(Names(table), Separator);
    if |table| == 0 {
      return CsvOutput([header], Some(NoKeys));
    }
    var lines := [header];
    var i := 0;
    while i < |table[0].values|
      invariant 0 <= i <= |table[0].values|
      invariant |lines| == 1 + i && lines[0] == header
      invariant forall r :: 0 <= r < i ==> HasRow(table, r)
      invariant forall r :: 1 <= r < |lines| ==>
        HasRow(table, r - 1) && lines[r] == Join(Row(table, r - 1, show), Separator)
    {
      var fields := [];
      var k := 0;
      while k < |table|
        invariant 0 <= k <= |table|
        invariant |fields| == k
        invariant forall j :: 0 <= j < k ==> i < |table[j].values| && fields[j] == show(table[j].values[i])
      {
        if |table[k].values| <= i {
          assert FirstShortAt(table, i, k);
          return CsvOutput(lines, Some(ShortColumn(table[k].name, i)));
        }
        fields := fields + [show(table[k].values[i])];
        k := k + 1;
      }
      assert fields == Row(table, i, show);
      lines := lines + [Join(fields, Separator)];
      i := i + 1;
    }
    forall k | 0 <= k < |table|
      ensures |table[0].values| <= |table[k].values|
    {
      if 0 < |table[0].values| {
        assert HasRow(table, |table[0].values| - 1);
      }
    }
    return CsvOutput(lines, None);
  }

  /** Joining two non-empty lists is joining each and gluing with the separator. */
  lemma {:induction false} JoinAppend(a: seq<string>, b: seq<string>, sep: string)
    requires |a| > 0 && |b| > 0
    ensures Join(a + b, sep) == Join(a, sep) + sep + Join(b, sep)
  {
    if |a| == 1 {
      assert (a + b)[1..] == b;
    } else {
      assert (a + b)[1..] == a[1..] + b;
      JoinAppend(a[1..], b, sep);
    }
  }

  /** Nothing is quoted, so a key containing ", " renders the same header as
      the two keys on either side of it, wherever it stands: the output cannot
      be parsed back. */
  lemma {:induction false} HeaderIsAmbiguous(a: seq<string>, x: string, y: string, b: seq<string>)
    ensures Join(a + [x + Separator + y] + b, Separator) == Join(a + [x, y] + b, Separator)
  {
    var s := x + Separator + y;
    assert Join([x, y], Separator) == s;
    assert Join([s], Separator) == s;
    if |a| > 0 {
      JoinAppend(a, [s], Separator);
      JoinAppend(a, [x, y], Separator);
    } else {
      assert a + [s] == [s] && a + [x, y] == [x, y];
    }
    assert Join(a + [s], Separator) == Join(a + [x, y], Separator);
    if |b| > 0 {
      JoinAppend(a + [s], b, Separator);
      JoinAppend(a + [x, y], b, Separator);
    } else {
      assert a + [s] + b == a + [s] && a + [x, y] + b == a + [x, y];
    }
  }
}
