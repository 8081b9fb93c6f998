/** The function visualizer of func_scope/script.js: the variables of an expression with their
    ranges, the update of those ranges from the per-variable inputs, and the sampling of the
    expression for the 2D curve and the 3D surface. Evaluating the expression (math.evaluate)
    is a parameter, and so is reading a number from an input (parseFloat). */
module Visualizer {
  import opened Wrappers
  import opened JsText
  import opened VariableScan

  /** The range and the fixed value of one variable. */
  datatype VarConfig = VarConfig(min: real, max: real, value: real)

  /** What parseFunction gives every variable it finds. */
  const DefaultConfig := VarConfig(-10.0, 10.0, 0.0)

  /** The names the parseFunction traversal does not treat as variables. Unlike `Reserved`,
      this list does not hold `Math`. */
  const SymbolReserved: seq<string> := [
    "sin", "cos", "tan",
    "asin", "acos", "atan",
    "sinh", "cosh", "tanh",
    "exp", "log", "sqrt",
    "pow", "abs",
    "PI", "E", "i",
    "Infinity", "NaN"
  ]

  /** The scope an expression is evaluated in. */
  type Scope = map<string, real>

  /** The outcome of evaluating the expression in a scope. */
  datatype Evaluation = Number(v: real) | Infinite | NaN | NotNumber | Threw

  /** Evaluation of the expression (math.evaluate with the expression fixed). */
  type Evaluator = Scope -> Evaluation

  /** The value plotted for an evaluation: the number when it is a finite number, else 0. */
  function PlotValue(e: Evaluation): real {
    if e.Number? then e.v else 0.0
  }

  /** The texts of the three inputs of a variable's control. */
  datatype ControlText = ControlText(min: string, max: string, value: string)

  /** A plot: a sampled curve or a sampled surface (rows of z follow the y axis). */
  datatype Plot = Curve(xs: seq<real>, ys: seq<real>) | Surface(xs: seq<real>, ys: seq<real>, zs: seq<seq<real>>)

  datatype ParseError = ParseFailed | NoVariables

  datatype PlotError = UnknownVariable(name: string)

  // ---------------------------------------------------------------- defaulting of the inputs

  /** `parseFloat(text) || fallback` as written: NaN and 0 both give the fallback. */
  function DefaultedAsWritten(parsed: Option<real>, fallback: real): real {
    if parsed.None? || parsed.value == 0.0 then fallback else parsed.value
  }

  /** The intended rule: only a text that is not a number gives the fallback. */
  function Defaulted(parsed: Option<real>, fallback: real): (v: real)
    ensures parsed.Some? ==> v == parsed.value
    ensures v == fallback <==> parsed.None? || parsed.value == fallback
  {
    if parsed.None? then fallback else parsed.value
  }

  /** The two rules differ exactly on a text that reads as 0 when the fallback is not 0. */
  lemma DefaultingDiffersOnlyAtZero(parsed: Option<real>, fallback: real)
    ensures DefaultedAsWritten(parsed, fallback) != Defaulted(parsed, fallback)
        <==> parsed == Some(0.0) && fallback != 0.0
  {
  }

  /** The configuration that the control's texts give as written: min falls back to −10,
      max to 10 and the value to 0. */
  function ApplyControlAsWritten(t: ControlText, parse: Parser): VarConfig {
    VarConfig(DefaultedAsWritten(parse(t.min), -10.0),
              DefaultedAsWritten(parse(t.max), 10.0),
              DefaultedAsWritten(parse(t.value), 0.0))
  }

  /** The configuration the control's texts give: each text that reads as a number is taken,
      0 included, and each field whose text does not falls back to its default (−10, 10, 0). */
  function ApplyControl(t: ControlText, parse: Parser): (c: VarConfig)
    ensures parse(t.min).Some? ==> c.min == parse(t.min).value
    ensures parse(t.max).Some? ==> c.max == parse(t.max).value
    ensures parse(t.value).Some? ==> c.value == parse(t.value).value
    ensures parse(t.min).None? ==> c.min == DefaultConfig.min
    ensures parse(t.max).None? ==> c.max == DefaultConfig.max
    ensures parse(t.value).None? ==> c.value == DefaultConfig.value
  {
    VarConfig(Defaulted(parse(t.min), -10.0),
              Defaulted(parse(t.max), 10.0),
              Defaulted(parse(t.value), 0.0))
  }

  /** A range from 0 to 5 typed into the inputs becomes −10 to 5 as written. */
  lemma ZeroMinimumDiscardedAsWritten(parse: Parser)
    requires parse("0") == Some(0.0) && parse("5") == Some(5.0) && parse("1") == Some(1.0)
    ensures ApplyControlAsWritten(ControlText("0", "5", "1"), parse) == VarConfig(-10.0, 5.0, 1.0)
    ensures ApplyControl(ControlText("0", "5", "1"), parse) == VarConfig(0.0, 5.0, 1.0)
  {
  }

  /** Every variable with a control takes its configuration from the control; the others keep
      theirs. */
  function WithControls(vars: map<string, VarConfig>, controls: map<string, ControlText>, parse: Parser)
    : (r: map<string, VarConfig>)
    ensures r.Keys == vars.Keys
    ensures forall k :: k in vars && k in controls ==> r[k] == ApplyControl(controls[k], parse)
    ensures forall k :: k in vars && k !in controls ==> r[k] == vars[k]
  {
    map k | k in vars :: if k in controls then ApplyControl(controls[k], parse) else vars[k]
  }

  // ---------------------------------------------------------------- sampling

  /** The distance between two neighbouring points when [lo, hi] is cut into n steps. */
  function AxisStep(lo: real, hi: real, n: nat): real
    requires n > 0
  {
    (hi - lo) / (n as real)
  }

  /** Point i of an axis from lo to hi in n steps: `lo + i * ((hi - lo) / n)`. */
  function AxisPoint(lo: real, hi: real, n: nat, i: nat): real
    requires n > 0
  {
    lo + (i as real) * AxisStep(lo, hi, n)
  }

  /** The axis starts at lo and its last point is hi. */
  lemma AxisEnds(lo: real, hi: real, n: nat)
    requires n > 0
    ensures AxisPoint(lo, hi, n, 0) == lo
    ensures AxisPoint(lo, hi, n, n) == hi
  {
  }

  /** The points are evenly spaced. */
  lemma AxisEvenlySpaced(lo: real, hi: real, n: nat, i: nat)
    requires n > 0
    ensures AxisPoint(lo, hi, n, i + 1) - AxisPoint(lo, hi, n, i) == (hi - lo) / (n as real)
  {
  }

  /** For lo ≤ hi the points rise from lo to hi and stay inside the range. */
  lemma AxisWithinRange(lo: real, hi: real, n: nat, i: nat, j: nat)
    requires n > 0 && lo <= hi && i <= j <= n
    ensures lo <= AxisPoint(lo, hi, n, i) <= AxisPoint(lo, hi, n, j) <= hi
  {
    var step := AxisStep(lo, hi, n);
    assert step >= 0.0;
    assert (i as real) * step <= (j as real) * step <= (n as real) * step;
  }

  /** The scope of one evaluation: the bound axis variables take their sample, every other
      variable its fixed value. */
  function Bind(vars: map<string, VarConfig>, bound: map<string, real>): (s: Scope)
    ensures s.Keys == vars.Keys + bound.Keys
    ensures forall k :: k in bound ==> s[k] == bound[k]
    ensures forall k :: k in vars && k !in bound ==> s[k] == vars[k].value
  {
    map k | k in vars.Keys + bound.Keys :: if k in bound then bound[k] else vars[k].value
  }

  /** Two maps with the same keys and the same values are equal. */
  lemma SameMaps(m: Scope, m': Scope)
    requires forall k :: k in m <==> k in m'
    requires forall k :: k in m ==> m[k] == m'[k]
    ensures m == m'
  {
  }

  /** The plotted value at the point x of the curve of xVar. */
  function CurvePoint(vars: map<string, VarConfig>, xVar: string, eval: Evaluator, x: real): real {
    PlotValue(eval(Bind(vars, map[xVar := x])))
  }

  /** The 2D plot of xVar: 101 points of its range from min to max and, at each, the plotted
      value of the expression with xVar at the point and every other variable at its value. */
  predicate IsCurve(vars: map<string, VarConfig>, xVar: string, eval: Evaluator, xs: seq<real>, ys: seq<real>) {
    && xVar in vars
    && |xs| == 101 && |ys| == 101
    && (forall i :: 0 <= i < 101 ==> xs[i] == AxisPoint(vars[xVar].min, vars[xVar].max, 100, i))
    && (forall i :: 0 <= i < 101 ==> ys[i] == CurvePoint(vars, xVar, eval, xs[i]))
  }

  /** The plotted value at the point (x, y) of the surface of xVar and yVar. */
  function SurfacePoint(vars: map<string, VarConfig>, xVar: string, yVar: string, eval: Evaluator,
                        x: real, y: real): real {
    PlotValue(eval(Bind(vars, map[xVar := x][yVar := y])))
  }

  /** The 3D plot of xVar and yVar: 41 points of each range and the grid of plotted values,
      row i at y point i and column j at x point j; when xVar and yVar are the same name the
      y point wins. */
  predicate IsSurface(vars: map<string, VarConfig>, xVar: string, yVar: string, eval: Evaluator,
                      xs: seq<real>, ys: seq<real>, zs: seq<seq<real>>) {
    && xVar in vars && yVar in vars
    && |xs| == 41 && |ys| == 41 && |zs| == 41
    && (forall i :: 0 <= i < 41 ==> xs[i] == AxisPoint(vars[xVar].min, vars[xVar].max, 40, i))
    && (forall i :: 0 <= i < 41 ==> ys[i] == AxisPoint(vars[yVar].min, vars[yVar].max, 40, i))
    && (forall i :: 0 <= i < 41 ==> |zs[i]| == 41)
    && (forall i, j :: 0 <= i < 41 && 0 <= j < 41 ==>
          zs[i][j] == SurfacePoint(vars, xVar, yVar, eval, xs[j], ys[i]))
  }

  /** A curve starts at the minimum of its variable and ends at the maximum. */
  lemma CurveSpansRange(vars: map<string, VarConfig>, xVar: string, eval: Evaluator, xs: seq<real>, ys: seq<real>)
    requires IsCurve(vars, xVar, eval, xs, ys)
    ensures xs[0] == vars[xVar].min && xs[100] == vars[xVar].max
  {
    AxisEnds(vars[xVar].min, vars[xVar].max, 100);
  }

  /** Binding a name twice keeps the second value. */
  lemma OverwriteBinding(v: string, a: real, b: real)
    ensures map[v := a][v := b] == map[v := b]
  {
  }

  /** When both axes name the same variable, every row of the surface is constant: the x point
      is overwritten by the y point. */
  lemma SameAxesGiveConstantRows(vars: map<string, VarConfig>, v: string, eval: Evaluator,
                                 xs: seq<real>, ys: seq<real>, zs: seq<seq<real>>, i: nat, j: nat)
    requires IsSurface(vars, v, v, eval, xs, ys, zs)
    requires i < 41 && j < 41
    ensures zs[i][j] == zs[i][0] == CurvePoint(vars, v, eval, ys[i])
  {
    OverwriteBinding(v, xs[j], ys[i]);
    OverwriteBinding(v, xs[0], ys[i]);
  }

  /** The two axes of the surface, computed together as in plot3D: n + 1 points of each
      range. */
  method SampleAxes(xConfig: VarConfig, yConfig: VarConfig, n: nat) returns (xs: seq<real>, ys: seq<real>)
    requires n > 0
    ensures |xs| == n + 1 && |ys| == n + 1
    ensures forall k :: 0 <= k <= n ==> xs[k] == AxisPoint(xConfig.min, xConfig.max, n, k)
    ensures forall k :: 0 <= k <= n ==> ys[k] == AxisPoint(yConfig.min, yConfig.max, n, k)
  {
    var xStep := AxisStep(xConfig.min, xConfig.max, n);
    var yStep := AxisStep(yConfig.min, yConfig.max, n);
    xs, ys := [], [];
    for i := 0 to n + 1
      invariant |xs| == i && |ys| == i
      invariant forall k :: 0 <= k < i ==> xs[k] == AxisPoint(xConfig.min, xConfig.max, n, k)
      invariant forall k :: 0 <= k < i ==> ys[k] == AxisPoint(yConfig.min, yConfig.max, n, k)
    {
      var xVal := xConfig.min + (i as real) * xStep;
      var yVal := yConfig.min + (i as real) * yStep;
      assert xVal == AxisPoint(xConfig.min, xConfig.max, n, i);
      assert yVal == AxisPoint(yConfig.min, yConfig.max, n, i);
      xs := xs + [xVal];
      ys := ys + [yVal];
    }
  }

  // ---------------------------------------------------------------- the visualizer

  class MultiVariableVisualizer {
    /** The variables of the last parsed expression, with their configuration. */
    var variables: map<string, VarConfig>

    /** A visualizer with no variables yet (the DOM wiring is not modelled). */
    constructor()
      ensures variables == map[]
    {
      variables := map[];
    }

    /** parseVariables: the names of the expression, without the reserved ones, each once and
        in the order they first occur. */
    method ParseVariables(expr: string) returns (vars: seq<string>)
      ensures NoDuplicates(vars)
      ensures forall v :: v in vars <==> v in Identifiers(expr) && v !in Reserved
      ensures forall i, j :: 0 <= i < j < |vars| ==>
        FirstIndex(Identifiers(expr), vars[i]) < FirstIndex(Identifiers(expr), vars[j])
    {
      var matches := Identifiers(expr);
      vars := [];
      for k := 0 to |matches|
        invariant vars == Collected(matches[..k])
      {
        var m := matches[k];
        assert matches[..k + 1][..k] == matches[..k];
        if m !in Reserved && m !in vars {
          vars := vars + [m];
        }
      }
      assert matches[..|matches|] == matches;
      CollectedSpec(matches);
    }

    /** parseFunction after math.parse: `symbols` is None when parsing throws (nothing
        changes), otherwise the symbol names the traversal visits. The variables are cleared,
        every non-reserved symbol gets the default configuration, and finding none fails. */
    method RegisterSymbols(symbols: Option<seq<string>>) returns (r: Result<(), ParseError>)
      modifies this
      ensures symbols.None? ==> r == Failure(ParseFailed) && variables == old(variables)
      ensures symbols.Some? ==>
        && (forall n :: n in variables <==> n in symbols.value && n !in SymbolReserved)
        && (forall n :: n in variables ==> variables[n] == DefaultConfig)
        && (r.Failure? <==> variables == map[])
        && (r.Failure? ==> r.error == NoVariables)
    {
      if symbols.None? {
        return Failure(ParseFailed);
      }
      var names := symbols.value;
      variables := map[];
      for k := 0 to |names|
        invariant forall n :: n in variables <==> n in names[..k] && n !in SymbolReserved
        invariant forall n :: n in variables ==> variables[n] == DefaultConfig
      {
        assert names[..k + 1] == names[..k] + [names[k]];
        if names[k] !in SymbolReserved {
          variables := variables[names[k] := DefaultConfig];
        }
      }
      assert names[..|names|] == names;
      if variables == map[] {
        return Failure(NoVariables);
      }
      return Success(());
    }

    /** The scope for one evaluation, built like the source: the bound axis variables first,
        then every other variable at its fixed value. */
    method BuildScope(bound: map<string, real>) returns (scope: Scope)
      ensures scope == Bind(variables, bound)
    {
      ghost var spec := Bind(variables, bound);
      scope := bound;
      var pending := variables.Keys;
      while pending != {}
        invariant pending <= variables.Keys
        invariant forall k :: k in scope <==> k in bound || (k in variables && k !in pending)
        invariant forall k :: k in scope ==> scope[k] == spec[k]
        decreases |pending|
      {
        var name :| name in pending;
        if name !in bound {
          scope := scope[name := variables[name].value];
        }
        pending := pending - {name};
      }
      SameMaps(scope, spec);
    }

    /** plot2D: the sampled curve of xVar; an unknown xVar throws. */
    method Plot2D(xVar: string, eval: Evaluator) returns (r: Result<Plot, PlotError>)
      ensures r.Failure? <==> xVar !in variables
      ensures r.Failure? ==> r.error == UnknownVariable(xVar)
      ensures r.Success? ==> r.value.Curve? && IsCurve(variables, xVar, eval, r.value.xs, r.value.ys)
    {
      if xVar !in variables {
        return Failure(UnknownVariable(xVar));
      }
      var config := variables[xVar];
      var points := 100;
      var step := AxisStep(config.min, config.max, points);
      var xs: seq<real> := [];
      var ys: seq<real> := [];
      for i := 0 to points + 1
        invariant |xs| == i && |ys| == i
        invariant forall k :: 0 <= k < i ==> xs[k] == AxisPoint(config.min, config.max, 100, k)
        invariant forall k :: 0 <= k < i ==> ys[k] == CurvePoint(variables, xVar, eval, xs[k])
      {
        var xVal := config.min + (i as real) * step;
        assert xVal == AxisPoint(config.min, config.max, 100, i);
        var scope := BuildScope(map[xVar := xVal]);
        xs := xs + [xVal];
        ys := ys + [PlotValue(eval(scope))];
      }
      return Success(Curve(xs, ys));
    }

    /** One row of the surface: the plotted values along the x axis at the y point yVal. */
    method SampleRow(xVar: string, yVar: string, xs: seq<real>, yVal: real, eval: Evaluator) returns (row: seq<real>)
      ensures |row| == |xs|
      ensures forall j :: 0 <= j < |xs| ==> row[j] == SurfacePoint(variables, xVar, yVar, eval, xs[j], yVal)
    {
      row := [];
      for j := 0 to |xs|
        invariant |row| == j
        invariant forall l :: 0 <= l < j ==> row[l] == SurfacePoint(variables, xVar, yVar, eval, xs[l], yVal)
      {
        var scope := BuildScope(map[xVar := xs[j]][yVar := yVal]);
        row := row + [PlotValue(eval(scope))];
      }
    }

    /** plot3D: the sampled surface of xVar and yVar; an unknown xVar or yVar throws. */
    method Plot3D(xVar: string, yVar: string, eval: Evaluator) returns (r: Result<Plot, PlotError>)
      ensures r.Failure? <==> xVar !in variables || yVar !in variables
      ensures r.Failure? ==> r.error == UnknownVariable(if xVar !in variables then xVar else yVar)
      ensures r.Success? ==> r.value.Surface? && IsSurface(variables, xVar, yVar, eval, r.value.xs, r.value.ys, r.value.zs)
    {
      if xVar !in variables {
        return Failure(UnknownVariable(xVar));
      }
      if yVar !in variables {
        return Failure(UnknownVariable(yVar));
      }
      var xConfig, yConfig := variables[xVar], variables[yVar];
      var xs, ys := SampleAxes(xConfig, yConfig, 40);
      var zs: seq<seq<real>> := [];
      for i := 0 to 41
        invariant |zs| == i
        invariant forall k :: 0 <= k < i ==> |zs[k]| == 41
        invariant forall k, j :: 0 <= k < i && 0 <= j < 41 ==>
          zs[k][j] == SurfacePoint(variables, xVar, yVar, eval, xs[j], ys[k])
      {
        var row := SampleRow(xVar, yVar, xs, ys[i], eval);
        zs := zs + [row];
      }
      return Success(Surface(xs, ys, zs));
    }

    /** updatePlot: every variable with a control takes its configuration from the control's
        texts, then the curve of xVar or the surface of xVar and yVar is sampled. A failing
        plot leaves the updated configurations in place. */
    method UpdatePlot(is3D: bool, xVar: string, yVar: string, controls: map<string, ControlText>,
                      parse: Parser, eval: Evaluator) returns (r: Result<Plot, PlotError>)
      modifies this
      ensures variables == WithControls(old(variables), controls, parse)
      ensures r.Failure? <==> xVar !in variables || (is3D && yVar !in variables)
      ensures r.Success? && !is3D ==> r.value.Curve? && IsCurve(variables, xVar, eval, r.value.xs, r.value.ys)
      ensures r.Success? && is3D ==>
        r.value.Surface? && IsSurface(variables, xVar, yVar, eval, r.value.xs, r.value.ys, r.value.zs)
    {
      var pending := variables.Keys;
      while pending != {}
        invariant pending <= variables.Keys
        invariant variables.Keys == old(variables).Keys
        invariant forall k :: k in variables ==>
          variables[k] == if k in pending then old(variables)[k] else WithControls(old(variables), controls, parse)[k]
        decreases |pending|
      {
        var name :| name in pending;
        if name in controls {
          variables := variables[name := ApplyControl(controls[name], parse)];
        }
        pending := pending - {name};
      }
      if is3D {
        r := Plot3D(xVar, yVar, eval);
      } else {
        r := Plot2D(xVar, eval);
      }
    }
  }
}
