/** The layout of the exported result table (buildResultTableForExport in ls_hymix/script.js):
    a header row, then one row per fit result with the index, x, the observed values, the
    predicted values, the relative errors and their mean. */
module ExportTable {
  import opened Wrappers
  import opened Fitters

  /** A cell of the table. `Fixed(v, d)` is the text `v.toFixed(d)`; its rendering is not
      modelled, only the number it denotes (see RoundTo). `Blank` is the empty text. */
  datatype Cell = Text(s: string) | Index(i: nat) | Fixed(v: real, digits: nat) | Blank

  function Pow10(d: nat): (p: nat)
    ensures p >= 1
  {
    if d == 0 then 1 else 10 * Pow10(d - 1)
  }

  function Abs(v: real): (r: real)
    ensures r >= 0.0 && (r == v || r == -v)
  {
    if v < 0.0 then -v else v
  }

  /** The number `v.toFixed(d)` denotes: v rounded to d decimals, ties away from zero. */
  function RoundTo(v: real, d: nat): real {
    var m := Pow10(d) as real;
    var n := (Abs(v) * m + 0.5).Floor;
    if v < 0.0 then -(n as real) / m else (n as real) / m
  }

  /** `Math.round(v)`: the nearest integer, ties towards +∞. */
  function MathRound(v: real): (n: int)
    ensures v - 0.5 < n as real <= v + 0.5
  {
    (v + 0.5).Floor
  }

  /** A number rounds to zero at four decimals exactly when it is within 0.00005 of zero. */
  lemma RoundToFourIsZeroIff(v: real)
    ensures RoundTo(v, 4) == 0.0 <==> -0.00005 < v < 0.00005
  {
    assert Pow10(4) == 10000;
    var n := (Abs(v) * 10000.0 + 0.5).Floor;
    assert n == 0 <==> Abs(v) * 10000.0 + 0.5 < 1.0;
  }

  /** The header: `索引`, `x`, then the names prefixed `原始-`, `计算-` and `相对误差-` in three
      blocks, then `平均误差`. */
  function Header(names: seq<string>): (h: seq<Cell>)
    ensures |h| == 3 * |names| + 3
    ensures h[0] == Text("索引") && h[1] == Text("x") && h[|h| - 1] == Text("平均误差")
    ensures forall i :: 0 <= i < |names| ==>
      && h[2 + i] == Text("原始-" + names[i])
      && h[2 + |names| + i] == Text("计算-" + names[i])
      && h[2 + 2 * |names| + i] == Text("相对误差-" + names[i])
  {
    [Text("索引"), Text("x")]
    + seq(|names|, i requires 0 <= i < |names| => Text("原始-" + names[i]))
    + seq(|names|, i requires 0 <= i < |names| => Text("计算-" + names[i]))
    + seq(|names|, i requires 0 <= i < |names| => Text("相对误差-" + names[i]))
    + [Text("平均误差")]
  }

  /** An observed value: blank when NaN or absent, otherwise written with four decimals. */
  function ObservedCell(o: Option<real>): Cell {
    match o
    case None => Blank
    case Some(v) => Fixed(v, 4)
  }

  /** The relative error in percent between a predicted and an observed value, both read back
      from their four-decimal texts, rounded to two decimals; blank when the observation is
      missing or reads back as 0. */
  function RelativeError(o: Option<real>, p: real): (c: Cell)
    ensures c == Blank || (c.Fixed? && c.digits == 2 && c.v >= 0.0)
  {
    if o.None? || RoundTo(o.value, 4) == 0.0 then Blank
    else
      var ov := RoundTo(o.value, 4);
      var re := Abs((RoundTo(p, 4) - ov) / ov) * 100.0;
      var rounded := MathRound(re * 100.0);
      assert rounded >= 0;
      Fixed((rounded as real) / 100.0, 2)
  }

  /** The relative error is blank exactly when the observation is missing or lies within
      0.00005 of zero. */
  lemma RelativeErrorBlankIff(o: Option<real>, p: real)
    ensures RelativeError(o, p) == Blank <==> o.None? || -0.00005 < o.value < 0.00005
  {
    if o.Some? {
      RoundToFourIsZeroIff(o.value);
    }
  }

  /** A relative error agrees with the exact one, |p − o| / |o| · 100 on the read-back values,
      to within half a unit of the second decimal. */
  lemma RelativeErrorIsRounded(o: real, p: real)
    requires RoundTo(o, 4) != 0.0
    ensures var ov := RoundTo(o, 4);
      var exact := Abs((RoundTo(p, 4) - ov) / ov) * 100.0;
      var c := RelativeError(Some(o), p);
      c.Fixed? && exact - 0.005 < c.v <= exact + 0.005
  {
  }

  function SumValues(cells: seq<Cell>): real {
    if cells == [] then 0.0
    else (if cells[0].Fixed? then cells[0].v else 0.0) + SumValues(cells[1..])
  }

  function CountValues(cells: seq<Cell>): (n: nat)
    ensures n <= |cells|
    ensures n == 0 <==> forall i :: 0 <= i < |cells| ==> !cells[i].Fixed?
  {
    if cells == [] then 0
    else (if cells[0].Fixed? then 1 else 0) + CountValues(cells[1..])
  }

  /** The sum of non-negative values is non-negative. */
  lemma {:induction false} SumValuesNonNegative(cells: seq<Cell>)
    requires forall i :: 0 <= i < |cells| ==> cells[i].Fixed? ==> cells[i].v >= 0.0
    ensures SumValues(cells) >= 0.0
  {
    if cells != [] {
      SumValuesNonNegative(cells[1..]);
    }
  }

  /** The mean of the relative errors that are present, with two decimals; blank when none is. */
  function MeanError(rel: seq<Cell>): (c: Cell)
    ensures c == Blank <==> forall i :: 0 <= i < |rel| ==> !rel[i].Fixed?
    ensures c.Fixed? ==> c.digits == 2
  {
    var n := CountValues(rel);
    if n == 0 then Blank else Fixed(SumValues(rel) / (n as real), 2)
  }

  /** The mean of non-negative relative errors is non-negative. */
  lemma MeanErrorNonNegative(rel: seq<Cell>)
    requires forall i :: 0 <= i < |rel| ==> rel[i] == Blank || (rel[i].Fixed? && rel[i].v >= 0.0)
    ensures MeanError(rel).Fixed? ==> MeanError(rel).v >= 0.0
  {
    SumValuesNonNegative(rel);
  }

  /** The relative errors of a result, one per observed value. */
  function RelativeErrors(r: FitResult): (rel: seq<Cell>)
    requires |r.y| <= |r.predicted|
    ensures |rel| == |r.y|
    ensures forall j :: 0 <= j < |rel| ==> rel[j] == RelativeError(r.y[j], r.predicted[j])
  {
    seq(|r.y|, j requires 0 <= j < |r.y| => RelativeError(r.y[j], r.predicted[j]))
  }

  /** The row of result number `index`. */
  function ResultRow(index: nat, r: FitResult): (row: seq<Cell>)
    requires |r.y| <= |r.predicted|
    ensures |row| == 2 * |r.y| + |r.predicted| + 3
  {
    [Index(index), Fixed(r.x, 6)]
    + seq(|r.y|, j requires 0 <= j < |r.y| => ObservedCell(r.y[j]))
    + seq(|r.predicted|, j requires 0 <= j < |r.predicted| => Fixed(r.predicted[j], 4))
    + RelativeErrors(r)
    + [MeanError(RelativeErrors(r))]
  }

  /** Where each cell of a row lies: the index, x with six decimals, the observations, the
      predictions, the relative errors and their mean. */
  lemma ResultRowLayout(index: nat, r: FitResult)
    requires |r.y| <= |r.predicted|
    ensures var row := ResultRow(index, r);
      && row[0] == Index(index) && row[1] == Fixed(r.x, 6)
      && (forall j :: 0 <= j < |r.y| ==> row[2 + j] == ObservedCell(r.y[j]))
      && (forall j :: 0 <= j < |r.predicted| ==> row[2 + |r.y| + j] == Fixed(r.predicted[j], 4))
      && (forall j :: 0 <= j < |r.y| ==>
            row[2 + |r.y| + |r.predicted| + j] == RelativeError(r.y[j], r.predicted[j]))
      && row[|row| - 1] == MeanError(RelativeErrors(r))
  {
  }

  /** A result with one observed and one predicted value per name fills the header exactly. */
  lemma RowFitsHeader(names: seq<string>, index: nat, r: FitResult)
    requires |r.y| == |r.predicted| == |names|
    ensures |ResultRow(index, r)| == |Header(names)|
  {
  }

  /** buildResultTableForExport: the header, then the rows of the results numbered from 1. */
  method BuildResultTable(names: seq<string>, results: seq<FitResult>) returns (rows: seq<seq<Cell>>)
    requires forall i :: 0 <= i < |results| ==> |results[i].y| <= |results[i].predicted|
    ensures |rows| == |results| + 1
    ensures rows[0] == Header(names)
    ensures forall i :: 0 <= i < |results| ==> rows[i + 1] == ResultRow(i + 1, results[i])
  {
    var header := Header(names);
    rows := [header];
    for i := 0 to |results|
      invariant |rows| == i + 1
      invariant rows[0] == header
      invariant forall k :: 0 <= k < i ==> rows[k + 1] == ResultRow(k + 1, results[k])
    {
      var row := ResultRow(i + 1, results[i]);
      rows := rows + [row];
    }
  }
}
