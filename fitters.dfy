/** The three fitters of the mixing-ratio estimator (ls_hymix/script.js): for every sample row
    they estimate the share x of end-member A, and report it with the observations and the
    model's prediction at x. */
module Fitters {
  import opened Wrappers
  import opened JsText
  import opened Sheet
  import opened GoldenSection
  import opened Mixing

  /** One entry of a fitter's `results`: `{ x, y, predicted }`. An observation that is NaN or
      absent is `None`. */
  datatype FitResult = FitResult(x: real, y: seq<Option<real>>, predicted: seq<real>)

  /** What the gas fitter returns: its results and the isotope column names. */
  datatype GasFit = GasFit(results: seq<FitResult>, varNames: seq<string>)

  datatype GasError =
    | OddCoefficientCount   // the coefficient vectors do not split into two halves
    | HeaderCellNotText     // `name.trim` called on a header cell that is not a string

  /** The tolerance and iteration caps the fitters hand to the search. */
  const SearchTolerance: real := 0.0000001
  const OilSearchCap: nat := 200
  const GasSearchCap: nat := 300

  /** `[...row]` for a row of present numbers. */
  function Present(row: seq<real>): (p: seq<Option<real>>)
    ensures |p| == |row|
    ensures forall i :: 0 <= i < |row| ==> p[i] == Some(row[i])
  {
    seq(|row|, i requires 0 <= i < |row| => Some(row[i]))
  }

  /** `s.slice(from, to)`: both ends are clamped to the length of `s`. */
  function Slice<T>(s: seq<T>, from: nat, to: nat): (r: seq<T>)
    ensures from <= to <= |s| ==> r == s[from..to]
    ensures |r| == if Min(to, |s|) <= from then 0 else Min(to, |s|) - from
    ensures forall i :: 0 <= i < |r| ==> from + i < |s| && r[i] == s[from + i]
  {
    var end := Min(to, |s|);
    if end <= from then [] else s[from..end]
  }

  /** Both oil fitters read `b[i]` and `row[i]` at every position of `a`. */
  predicate OilInputs(a: seq<real>, b: seq<real>, params: seq<seq<real>>) {
    |b| >= |a| && forall k :: 0 <= k < |params| ==> |params[k]| >= |a|
  }

  /** calcOilLinear: one result per sample row, in order; x is the closed-form least-squares
      fraction (not clamped to [0, 1]), y the row and predicted the mixture at x. */
  method CalcOilLinear(a: seq<real>, b: seq<real>, params: seq<seq<real>>) returns (results: seq<FitResult>)
    requires OilInputs(a, b, params)
    ensures |results| == |params|
    ensures forall k :: 0 <= k < |params| ==>
      && results[k].x == ClosedFormFraction(a, b, params[k])
      && results[k].y == Present(params[k])
      && results[k].predicted == LinearPrediction(a, b, results[k].x)
  {
    results := [];
    for k := 0 to |params|
      invariant |results| == k
      invariant forall j :: 0 <= j < k ==>
        && results[j].x == ClosedFormFraction(a, b, params[j])
        && results[j].y == Present(params[j])
        && results[j].predicted == LinearPrediction(a, b, results[j].x)
    {
      var row := params[k];
      var x := ClosedFormFraction(a, b, row);
      results := results + [FitResult(x, Present(row), LinearPrediction(a, b, x))];
    }
  }

  /** The function calcOilNonlinear hands to the search: x ↦ the mean squared oil residual. */
  function OilObjective(a: seq<real>, b: seq<real>, row: seq<real>): real -> real
    requires |b| >= |a| && |row| >= |a|
  {
    t => OilMse(a, b, row, t)
  }

  /** calcOilNonlinear: one result per sample row, in order; x is the result of the
      golden-section search of the mean squared residual on [0, 1] with tolerance 10⁻⁷ and at
      most 200 iterations (so x lies in [0, 1]; UnitIntervalRunLength: 34 iterations), y the
      row and predicted the mixture at x. */
  method CalcOilNonlinear(a: seq<real>, b: seq<real>, params: seq<seq<real>>, gr: real)
    returns (results: seq<FitResult>)
    requires OilInputs(a, b, params) && IsGoldenRatio(gr)
    ensures |results| == |params|
    ensures forall k :: 0 <= k < |params| ==>
      && results[k].x == GoldenMid(OilObjective(a, b, params[k]), 0.0, 1.0, SearchTolerance, OilSearchCap, gr)
      && 0.0 <= results[k].x <= 1.0
      && results[k].y == Present(params[k])
      && results[k].predicted == LinearPrediction(a, b, results[k].x)
  {
    results := [];
    for k := 0 to |params|
      invariant |results| == k
      invariant forall j :: 0 <= j < k ==>
        && results[j].x == GoldenMid(OilObjective(a, b, params[j]), 0.0, 1.0, SearchTolerance, OilSearchCap, gr)
        && 0.0 <= results[j].x <= 1.0
        && results[j].y == Present(params[j])
        && results[j].predicted == LinearPrediction(a, b, results[j].x)
    {
      var row := params[k];
      var x: real, fx: real;
      ghost var iters: nat, lo: real, hi: real, probes: seq<real>;
      x, fx, iters, lo, hi, probes :=
        GoldenSectionMin(OilObjective(a, b, row), 0.0, 1.0, SearchTolerance, OilSearchCap, gr);
      results := results + [FitResult(x, Present(row), LinearPrediction(a, b, x))];
    }
  }

  /** The predicted loop of calcGasNonlinear: the isotope value at every position j < half. */
  method PredictIsotopes(a: seq<real>, b: seq<real>, x: real) returns (predicted: seq<real>)
    requires |a| % 2 == 0 && |b| >= |a|
    ensures predicted == GasPredictions(a, b, x)
  {
    var half := |a| / 2;
    predicted := [];
    for j := 0 to half
      invariant predicted == GasPredictions(a, b, x)[..j]
    {
      var num := x * a[j] * a[half + j] + (1.0 - x) * b[j] * b[half + j];
      var den := x * a[j] + (1.0 - x) * b[j];
      var p := if den == 0.0 then 0.0 else num / den;
      assert p == GasPredictions(a, b, x)[j];
      assert GasPredictions(a, b, x)[..j + 1] == GasPredictions(a, b, x)[..j] + [p];
      predicted := predicted + [p];
    }
  }

  // ---------------------------------------------------------------- isotope column names

  /** JavaScript truthiness of a cell: a non-empty text, a non-zero number, `true`. */
  predicate Truthy(c: SheetCell) {
    match c
    case Text(s) => s != ""
    case Number(v) => v != 0.0
    case Flag(f) => f
  }

  /** `同位素${i + 1}`: the prefix 同位素, then the decimal digits of i + 1 with no leading
      zero. */
  function FallbackName(i: nat): (s: string)
    ensures |s| >= 4 && s[..3] == "同位素"
    ensures IsDigits(s[3..]) && DecimalValue(s[3..]) == i + 1 && s[3] != '0'
    ensures !IsBlank(s)
  {
    var s := "同位素" + NatToString(i + 1);
    assert s[3..] == NatToString(i + 1);
    NatToStringValue(i + 1);
    assert !IsJsSpace(s[0]);
    s
  }

  /** Different isotopes get different fallback names. */
  lemma FallbackNamesDistinct(i: nat, j: nat)
    ensures i != j ==> FallbackName(i) != FallbackName(j)
  {
    if FallbackName(i) == FallbackName(j) {
      assert FallbackName(i)[3..] == FallbackName(j)[3..];
    }
  }

  /** The name the header offers for isotope i: its cell at half + i when that is a text that
      is not blank, trimmed. */
  function HeaderName(header: Row, half: nat, i: nat): Option<string> {
    if half + i < |header| && header[half + i].Text? && Trim(header[half + i].s) != "" then
      Some(Trim(header[half + i].s))
    else None
  }

  /** The isotope names of calcGasNonlinear as evidently intended: one per isotope, the
      trimmed header text where there is one and the fallback name otherwise. */
  function IsotopeNames(header: Row, half: nat): (names: seq<string>)
    ensures |names| == half
    ensures forall i :: 0 <= i < half ==> names[i] == HeaderName(header, half, i).GetOr(FallbackName(i))
  {
    seq(half, i requires 0 <= i < half => HeaderName(header, half, i).GetOr(FallbackName(i)))
  }

  /** No isotope name is blank, and a name taken from the header has no surrounding white
      space. */
  lemma IsotopeNamesNotBlank(header: Row, half: nat)
    ensures forall i :: 0 <= i < half ==> !IsBlank(IsotopeNames(header, half)[i])
    ensures forall i :: 0 <= i < half && HeaderName(header, half, i).Some? ==>
      var n := IsotopeNames(header, half)[i];
      !IsJsSpace(n[0]) && !IsJsSpace(n[|n| - 1])
  {
    forall i | 0 <= i < half
      ensures !IsBlank(IsotopeNames(header, half)[i])
      ensures HeaderName(header, half, i).Some? ==>
        var n := IsotopeNames(header, half)[i];
        !IsJsSpace(n[0]) && !IsJsSpace(n[|n| - 1])
    {
      var n := IsotopeNames(header, half)[i];
      if HeaderName(header, half, i).Some? {
        assert n == Trim(header[half + i].s);
        TrimmedEnds(header[half + i].s);
      }
    }
  }

  /** The isotope names as line 219 computes them: from `headerRow.slice(half, 2 * half)`,
      which is shorter than half when the header row is; a truthy cell that is not a string
      makes `name.trim` throw. */
  function IsotopeNamesAsWritten(header: Row, half: nat): (r: Result<seq<string>, GasError>)
    ensures r.Failure? <==> exists i :: half <= i < Min(half + half, |header|) && Truthy(header[i]) && !header[i].Text?
    ensures r.Success? ==> |r.value| == |Slice(header, half, half + half)|
  {
    var cells := Slice(header, half, half + half);
    if exists i :: 0 <= i < |cells| && Truthy(cells[i]) && !cells[i].Text? then
      assert exists i :: half <= i < Min(half + half, |header|) && Truthy(header[i]) && !header[i].Text? by {
        var i :| 0 <= i < |cells| && Truthy(cells[i]) && !cells[i].Text?;
        assert header[half + i] == cells[i];
      }
      Failure(HeaderCellNotText)
    else
      assert forall i :: half <= i < Min(half + half, |header|) ==> header[i] == cells[i - half];
      Success(seq(|cells|, i requires 0 <= i < |cells| =>
        if Truthy(cells[i]) && Trim(cells[i].s) != "" then Trim(cells[i].s) else FallbackName(i)))
  }

  /** Wherever the names as written exist they agree with the intended ones: the intended
      names only add the missing tail and replace the crash. */
  lemma IsotopeNamesAsWrittenIsPrefix(header: Row, half: nat)
    ensures var r := IsotopeNamesAsWritten(header, half);
      r.Success? ==> |r.value| <= half && r.value == IsotopeNames(header, half)[..|r.value|]
  {
    var r := IsotopeNamesAsWritten(header, half);
    if r.Success? {
      var cells := Slice(header, half, half + half);
      var names := IsotopeNames(header, half);
      forall i | 0 <= i < |r.value| ensures r.value[i] == names[i] {
        assert cells[i] == header[half + i];
      }
    }
  }

  /** A parameter sheet without a header row: its first row holds numbers, and the gas fitter
      as written throws on it, while the intended names are the fallbacks. */
  lemma NumericHeaderThrowsAsWritten()
    ensures IsotopeNamesAsWritten([Number(10.0), Number(-25.5)], 1) == Failure(HeaderCellNotText)
    ensures IsotopeNames([Number(10.0), Number(-25.5)], 1) == [FallbackName(0)]
  {
    assert Slice([Number(10.0), Number(-25.5)], 1, 2)[0] == Number(-25.5);
  }

  /** A header row that stops before the isotope columns yields fewer names than isotopes as
      written; the intended names have one per isotope. */
  lemma ShortHeaderLosesNamesAsWritten()
    ensures IsotopeNamesAsWritten([Text("CH4")], 1) == Success([])
    ensures IsotopeNames([Text("CH4")], 1) == [FallbackName(0)]
  {
  }

  // ---------------------------------------------------------------- the gas fitter

  /** The function calcGasNonlinear hands to the search: x ↦ the mean squared isotope
      residual, a missing, NaN or zero observation counting as 0. */
  function GasObjective(a: seq<real>, b: seq<real>, obs: seq<Option<real>>): real -> real
    requires |a| % 2 == 0 && |b| >= |a|
  {
    t => GasMse(a, b, obs, t)
  }

  /** calcGasNonlinear, with the header row of the parameter sheet passed in (the empty row
      when that sheet is missing). Fails exactly when |a| is odd; otherwise one result per
      sample row, in order: x is the result of the golden-section search of the isotope
      objective on [0, 1] with tolerance 10⁻⁷ and at most 300 iterations, y the row's
      isotope half and predicted the isotope model at x. */
  method CalcGasNonlinear(a: seq<real>, b: seq<real>, params: seq<seq<Option<real>>>, header: Row, gr: real)
    returns (r: Result<GasFit, GasError>)
    requires |b| >= |a| && IsGoldenRatio(gr)
    ensures r.Failure? <==> |a| % 2 != 0
    ensures r.Failure? ==> r.error == OddCoefficientCount
    ensures r.Success? ==>
      && r.value.varNames == IsotopeNames(header, |a| / 2)
      && |r.value.results| == |params|
      && forall k :: 0 <= k < |params| ==>
        && r.value.results[k].y == Slice(params[k], |a| / 2, |a|)
        && r.value.results[k].x == GoldenMid(GasObjective(a, b, r.value.results[k].y), 0.0, 1.0, SearchTolerance, GasSearchCap, gr)
        && 0.0 <= r.value.results[k].x <= 1.0
        && r.value.results[k].predicted == GasPredictions(a, b, r.value.results[k].x)
  {
    if |a| % 2 != 0 {
      return Failure(OddCoefficientCount);
    }
    var half := |a| / 2;
    var varNames := IsotopeNames(header, half);
    var results: seq<FitResult> := [];
    for k := 0 to |params|
      invariant |results| == k
      invariant forall j :: 0 <= j < k ==>
        && results[j].y == Slice(params[j], half, |a|)
        && results[j].x == GoldenMid(GasObjective(a, b, results[j].y), 0.0, 1.0, SearchTolerance, GasSearchCap, gr)
        && 0.0 <= results[j].x <= 1.0
        && results[j].predicted == GasPredictions(a, b, results[j].x)
    {
      var obs := Slice(params[k], half, half + half);
      var x: real, fx: real;
      ghost var iters: nat, lo: real, hi: real, probes: seq<real>;
      x, fx, iters, lo, hi, probes :=
        GoldenSectionMin(GasObjective(a, b, obs), 0.0, 1.0, SearchTolerance, GasSearchCap, gr);
      var predicted := PredictIsotopes(a, b, x);
      results := results + [FitResult(x, obs, predicted)];
    }
    r := Success(GasFit(results, varNames));
  }
}
