/** Turning the two worksheets of the mixing-ratio estimator into numbers:
    the coefficient sheet gives the end-member vectors `a` and `b`, the parameter
    sheet gives one row of observations per sample (ls_hymix/script.js). */
module Sheet {
  import opened Wrappers
  import opened JsText

  /** A cell as the spreadsheet reader delivers it (read with `defval: ''`, so an
      empty cell is the empty text). */
  datatype SheetCell = Text(s: string) | Number(v: real) | Flag(b: bool)

  type Row = seq<SheetCell>

  datatype Coefficients = Coefficients(a: seq<real>, b: seq<real>, n: nat)

  datatype SheetError =
    | TooFewCoefficientRows   // the coefficient sheet has fewer than two rows

  /** `parseFloat(cell)`: a number parses to itself, a boolean to NaN. */
  function ParseCell(c: SheetCell, parse: Parser): Option<real> {
    match c
    case Number(v) => Some(v)
    case Text(s) => parse(s)
    case Flag(_) => None
  }

  /** `parseFloat(v) || 0`: NaN (and 0) become 0. */
  function CoefficientOf(c: SheetCell, parse: Parser): real {
    ParseCell(c, parse).GetOr(0.0)
  }

  /** `row.some(v => v !== '')`. */
  predicate HasNonEmptyCell(r: Row) {
    exists k :: 0 <= k < |r| && r[k] != Text("")
  }

  /** `row.slice(1).map(v => parseFloat(v) || 0)`: every column but the first. */
  function CoefficientVector(r: Row, parse: Parser): (v: seq<real>)
    ensures |r| > 0 ==> |v| == |r| - 1
    ensures |r| == 0 ==> v == []
    ensures forall i :: 0 <= i < |v| ==> v[i] == CoefficientOf(r[i + 1], parse)
  {
    if |r| == 0 then [] else seq(|r| - 1, i requires 0 <= i < |r| - 1 => CoefficientOf(r[i + 1], parse))
  }

  /** The index of the row that holds `a`; `b` is the row after it. Rows 1 and 2 are used
      when both exist and hold something, otherwise rows 0 and 1. */
  function CoefficientRowIndex(sheet: seq<Row>): nat
    requires |sheet| >= 2
  {
    if |sheet| >= 3 && HasNonEmptyCell(sheet[1]) && HasNonEmptyCell(sheet[2]) then 1 else 0
  }

  /** JavaScript's `a[i] === 0 && b[i] === 0`, where an index past the end is `undefined`. */
  predicate BothZeroAt(a: seq<real>, b: seq<real>, i: int) {
    0 <= i < |a| && 0 <= i < |b| && a[i] == 0.0 && b[i] == 0.0
  }

  function Max(x: nat, y: nat): nat { if x >= y then x else y }

  function Min(x: nat, y: nat): nat { if x <= y then x else y }

  /** extractCoeffsFromSheetArr. Fails on a sheet of fewer than two rows; otherwise reads `a`
      and `b` from the chosen pair of rows and cuts off the trailing positions where both are
      0 — and only those: the position before the cut is not such a pair. */
  method ExtractCoefficients(sheet: seq<Row>, parse: Parser) returns (r: Result<Coefficients, SheetError>)
    ensures r.Failure? <==> |sheet| < 2
    ensures r.Failure? ==> r.error == TooFewCoefficientRows
    ensures r.Success? ==>
      var k := CoefficientRowIndex(sheet);
      var a := CoefficientVector(sheet[k], parse);
      var b := CoefficientVector(sheet[k + 1], parse);
      var n := r.value.n;
      && n <= Max(|a|, |b|)
      && r.value.a == a[..Min(n, |a|)]
      && r.value.b == b[..Min(n, |b|)]
      && (forall i :: n <= i < Max(|a|, |b|) ==> BothZeroAt(a, b, i))
      && !BothZeroAt(a, b, n - 1)
      && (|a| == |b| ==> |r.value.a| == |r.value.b| == n)
  {
    if |sheet| < 2 {
      return Failure(TooFewCoefficientRows);
    }
    var k := CoefficientRowIndex(sheet);
    var a := CoefficientVector(sheet[k], parse);
    var b := CoefficientVector(sheet[k + 1], parse);
    var n: nat := Max(|a|, |b|);
    while n > 0 && BothZeroAt(a, b, n - 1)
      invariant n <= Max(|a|, |b|)
      invariant forall i :: n <= i < Max(|a|, |b|) ==> BothZeroAt(a, b, i)
    {
      n := n - 1;
    }
    r := Success(Coefficients(a[..Min(n, |a|)], b[..Min(n, |b|)], n));
  }

  /** `first.some(c => typeof c === 'string' && c.trim() !== '')`: the first row of the
      parameter sheet is a header when it holds a non-blank text. */
  predicate IsHeaderRow(r: Row) {
    exists k :: 0 <= k < |r| && r[k].Text? && Trim(r[k].s) != ""
  }

  /** One observation: a missing or empty cell is NaN, anything else goes through parseFloat. */
  function ParamCell(r: Row, i: nat, parse: Parser): Option<real> {
    if i < |r| && r[i] != Text("") then ParseCell(r[i], parse) else None
  }

  /** A row padded or cut to `n` observations. */
  function PadRow(r: Row, n: nat, parse: Parser): (p: seq<Option<real>>)
    ensures |p| == n
    ensures forall i :: 0 <= i < n ==> p[i] == ParamCell(r, i, parse)
  {
    seq(n, i requires 0 <= i < n => ParamCell(r, i, parse))
  }

  /** `!row.some(v => !isNaN(v))`. */
  predicate AllMissing(p: seq<Option<real>>) {
    forall i :: 0 <= i < |p| ==> p[i].None?
  }

  /** The padded rows `sheet[from..]` that are not entirely NaN, in sheet order. */
  function KeepRows(sheet: seq<Row>, from: nat, n: nat, parse: Parser): (out: seq<seq<Option<real>>>)
    requires from <= |sheet|
    ensures |out| <= |sheet| - from
    ensures forall j :: 0 <= j < |out| ==> |out[j]| == n && !AllMissing(out[j])
    decreases |sheet| - from
  {
    if from == |sheet| then []
    else
      var p := PadRow(sheet[from], n, parse);
      var rest := KeepRows(sheet, from + 1, n, parse);
      if AllMissing(p) then rest else [p] + rest
  }

  /** The first data row: 1 when the first row is a header, else 0. */
  function FirstDataRow(sheet: seq<Row>): nat
    requires |sheet| > 0
  {
    if IsHeaderRow(sheet[0]) then 1 else 0
  }

  /** extractParamsFromSheetArr. */
  function ExtractParams(sheet: seq<Row>, n: nat, parse: Parser): (out: seq<seq<Option<real>>>)
    ensures |sheet| == 0 ==> out == []
    ensures forall j :: 0 <= j < |out| ==> |out[j]| == n && !AllMissing(out[j])
  {
    if |sheet| == 0 then [] else KeepRows(sheet, FirstDataRow(sheet), n, parse)
  }

  /** The sheet indices of the rows KeepRows keeps (a proof device). */
  ghost function KeptIndices(sheet: seq<Row>, from: nat, n: nat, parse: Parser): seq<nat>
    requires from <= |sheet|
    decreases |sheet| - from
  {
    if from == |sheet| then []
    else
      var rest := KeptIndices(sheet, from + 1, n, parse);
      if AllMissing(PadRow(sheet[from], n, parse)) then rest else [from] + rest
  }

  /** KeepRows is exactly a filter: its rows are the padded rows at strictly increasing sheet
      indices, and a row from `from` on is kept if and only if it is not entirely NaN. */
  lemma {:induction false} KeepRowsIsFilter(sheet: seq<Row>, from: nat, n: nat, parse: Parser)
    requires from <= |sheet|
    ensures var out := KeepRows(sheet, from, n, parse);
      var idx := KeptIndices(sheet, from, n, parse);
      && |idx| == |out|
      && (forall j :: 0 <= j < |idx| ==> from <= idx[j] < |sheet| && out[j] == PadRow(sheet[idx[j]], n, parse))
      && (forall j, l :: 0 <= j < l < |idx| ==> idx[j] < idx[l])
      && (forall i :: from <= i < |sheet| ==> (i in idx <==> !AllMissing(PadRow(sheet[i], n, parse))))
    decreases |sheet| - from
  {
    if from < |sheet| {
      KeepRowsIsFilter(sheet, from + 1, n, parse);
      var p := PadRow(sheet[from], n, parse);
      var rest := KeptIndices(sheet, from + 1, n, parse);
      assert from !in rest;
      if !AllMissing(p) {
        assert KeptIndices(sheet, from, n, parse) == [from] + rest;
        assert KeepRows(sheet, from, n, parse) == [p] + KeepRows(sheet, from + 1, n, parse);
      }
    }
  }

  /** The parameter rows are the data rows (all rows but a header) that are not entirely NaN,
      each padded or cut to `n` observations, in sheet order; the header never becomes a
      sample. */
  lemma ExtractParamsIsFilter(sheet: seq<Row>, n: nat, parse: Parser)
    requires |sheet| > 0
    ensures var out := ExtractParams(sheet, n, parse);
      var idx := KeptIndices(sheet, FirstDataRow(sheet), n, parse);
      && |idx| == |out|
      && (forall j :: 0 <= j < |idx| ==> idx[j] < |sheet| && out[j] == PadRow(sheet[idx[j]], n, parse))
      && (forall j, l :: 0 <= j < l < |idx| ==> idx[j] < idx[l])
      && (forall i :: 0 <= i < |sheet| ==>
            (i in idx <==> (i > 0 || !IsHeaderRow(sheet[0])) && !AllMissing(PadRow(sheet[i], n, parse))))
  {
    KeepRowsIsFilter(sheet, FirstDataRow(sheet), n, parse);
  }
}
