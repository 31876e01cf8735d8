/**
 * What `handle_function_input` builds for each kind of plot, with sympy,
 * numpy, matplotlib and the file system reduced to the outcomes they can
 * have: `PlotExplicit`, `PlotImplicit` and `PlotSurface` are the bodies of
 * the three branches of its `try` block; `Err(m)` is an exception escaping it.
 */
module Render {
  import opened Wrappers
  import opened Text
  import opened Sampling
  import opened Routing

  /**
   * What `sympify(equation)` gives: it raises, or it yields an expression in `x`
   * whose `float(expr.subs(x, xi))` at a point is a real or raises (a complex
   * value, a free symbol other than `x`, ...).
   */
  datatype Sympified = SympifyRaised(message: string) | Expression(valueAt: real -> Result<real>)

  /**
   * How drawing, `plt.savefig` and sending the photo end: the file was written
   * and sent, it is missing afterwards, or one of the calls raised.
   */
  datatype Drawing = Saved | NotSaved | DrawRaised(message: string)

  /** The outside libraries as they behave while one message is handled. */
  datatype Libraries = Libraries(sympify: string -> Sympified, drawing: Drawing)

  /** The three surfaces the 3D branch knows. */
  datatype Surface = CosXSinY | SinOfRadius | Hemisphere

  /** The implicit branch's field, `X**2 + Y**2 - 1`, whatever the text says. */
  datatype Field = UnitCircle

  function FieldAt(f: Field, x: real, y: real): real {
    match f
    case UnitCircle => x * x + y * y - 1.0
  }

  datatype Plot =
    | Curve(xs: seq<real>, ys: seq<real>)
    | ZeroContour(grid: Grid, field: Field)
    | SurfacePlot(grid: Grid, surface: Surface)

  /** A figure: what is drawn, its title, legend, axis labels, and whether `plt.grid()` was called. */
  datatype Figure = Figure(plot: Plot, title: string, legend: Option<string>, axes: seq<string>, gridLines: bool)

  /** A reply sent back to the user: a text with an optional keyboard, or a saved image. */
  datatype Reply = Message(text: string, keyboard: Keyboard) | Photo(file: string, figure: Figure)

  const ExplicitFile := "explicit_plot.png"
  const ImplicitFile := "implicit_plot.png"
  const SurfaceFile := "3d_plot.png"

  /** `str(e)` of the FileNotFoundError that `open(file_path, 'rb')` raises. */
  function FileNotFound(file: string): string {
    "[Errno 2] No such file or directory: '" + file + "'"
  }

  /** The equation of an explicit function: `text.replace('y =', '').strip()`. */
  function ExtractEquation(text: string): (equation: string)
    ensures IsStripped(equation) && |equation| <= |text|
  {
    Strip(Replace(text, "y =", ""))
  }

  /** The explicit curve's legend. */
  function Legend(equation: string): string {
    "y = " + equation
  }

  /**
   * A message written as the legend shows it gives back its equation, so the
   * legend repeats the message: for a stripped `e` not containing "y =",
   * `ExtractEquation("y = " + e) == e`.
   */
  lemma ExtractEquationOfLegend(e: string)
    requires IsStripped(e)
    requires forall i :: 0 <= i <= |e| ==> !OccursAt(e, "y =", i)
    ensures ExtractEquation(Legend(e)) == e
    ensures Legend(ExtractEquation(Legend(e))) == Legend(e)
  {
    var padded := [' '] + e;
    assert Legend(e) == "y =" + padded;
    ReplaceAtFront("y =", padded, "");
    ReplaceCopiesFront(' ', e, "y =", "");
    ReplaceWithoutOccurrence(e, "y =", "");
    assert Replace(Legend(e), "y =", "") == padded;
    StripPadded([' '], e, []);
    assert [' '] + e + [] == padded;
  }

  /** Plain "y=x**2" keeps its "y=": only the spaced form "y =" is removed. */
  lemma UnspacedPrefixIsKept()
    ensures ExtractEquation("y=x**2") == "y=x**2"
  {
    var s := "y=x**2";
    forall i | 0 <= i <= |s|
      ensures !OccursAt(s, "y =", i)
    {
      if i + 3 <= |s| {
        assert s[i..i + 3][1] == s[i + 1] != ' ';
      }
    }
    ReplaceWithoutOccurrence(s, "y =", "");
    assert s[0] == 'y' && s[|s| - 1] == '2';
    assert IsStripped(s);
    StripPadded([], s, []);
    assert [] + s + [] == s;
  }

  /** The string each surface is selected by. */
  function SurfaceText(s: Surface): string {
    match s
    case CosXSinY => "z = cos(x) * sin(y)"
    case SinOfRadius => "z = sin(sqrt(x**2 + y**2))"
    case Hemisphere => "z = sqrt(100 - x**2 - y**2)"
  }

  /** The 3D branch's exact comparison of the stripped text with the three known formulas. */
  function SurfaceFor(equation: string): (r: Option<Surface>)
    ensures r.Some? ==> SurfaceText(r.value) == equation
    ensures r.None? <==> forall s: Surface :: SurfaceText(s) != equation
  {
    if equation == "z = cos(x) * sin(y)" then Some(CosXSinY)
    else if equation == "z = sin(sqrt(x**2 + y**2))" then Some(SinOfRadius)
    else if equation == "z = sqrt(100 - x**2 - y**2)" then Some(Hemisphere)
    else None
  }

  /** Each known formula selects its own surface. */
  lemma SurfaceForText(s: Surface)
    ensures SurfaceFor(SurfaceText(s)) == Some(s)
  {
    match s
    case CosXSinY =>
    case SinOfRadius =>
      assert SurfaceText(s)[4] != "z = cos(x) * sin(y)"[4];
    case Hemisphere =>
      assert SurfaceText(s)[5] != "z = cos(x) * sin(y)"[5];
      assert SurfaceText(s)[5] != "z = sin(sqrt(x**2 + y**2))"[5];
  }

  /**
   * The example the 3D prompt shows, "z = sin(x) * cos(y)", is not one of the
   * known formulas, while surrounding blanks are forgiven by the strip.
   */
  lemma SurfacePromptExampleIsUnknown()
    ensures SurfaceFor("z = sin(x) * cos(y)") == None
  {
    var e := "z = sin(x) * cos(y)";
    assert e[4] != SurfaceText(CosXSinY)[4];
    assert e[8] != SurfaceText(SinOfRadius)[8];
    assert e[5] != SurfaceText(Hemisphere)[5];
  }

  /** Blanks around a known formula are forgiven: the text is stripped before the comparison. */
  lemma SurfaceMatchAfterStrip(pre: string, s: Surface, post: string)
    requires AllSpace(pre) && AllSpace(post)
    ensures SurfaceFor(Strip(pre + SurfaceText(s) + post)) == Some(s)
  {
    var t := SurfaceText(s);
    assert t[0] == 'z';
    assert t[|t| - 1] == ')';
    StripPadded(pre, t, post);
    SurfaceForText(s);
  }

  /**
   * The end of the explicit and implicit branches: `open(file_path, 'rb')`
   * raises FileNotFoundError when the file is missing.
   */
  function Deliver(file: string, figure: Figure, drawing: Drawing): (r: Result<Reply>)
    ensures r.Ok? <==> drawing == Saved
    ensures r.Ok? ==> r.value == Photo(file, figure)
    ensures drawing == NotSaved ==> r == Err(FileNotFound(file))
    ensures drawing.DrawRaised? ==> r == Err(drawing.message)
  {
    match drawing
    case Saved => Ok(Photo(file, figure))
    case NotSaved => Err(FileNotFound(file))
    case DrawRaised(m) => Err(m)
  }

  /** `float(expr.subs(x, xi))` succeeds at every explicit sample point. */
  predicate EvaluatesEverywhere(valueAt: real -> Result<real>) {
    forall i :: 0 <= i < SampleCount ==> valueAt(CurveXs()[i]).Ok?
  }

  /** `ys` holds the value of `valueAt` at each explicit sample, in sample order. */
  predicate IsCurveOf(ys: seq<real>, valueAt: real -> Result<real>) {
    |ys| == SampleCount && forall i :: 0 <= i < SampleCount ==> valueAt(CurveXs()[i]) == Ok(ys[i])
  }

  /** The figure of the explicit branch. */
  function CurveFigure(equation: string, ys: seq<real>): Figure {
    Figure(Curve(CurveXs(), ys), "Явная функция", Some(Legend(equation)), ["X", "Y"], true)
  }

  /** `sympify` succeeds on the explicit equation and the result evaluates at every sample. */
  predicate SamplesEvaluate(text: string, libs: Libraries) {
    libs.sympify(ExtractEquation(text)).Expression? &&
    EvaluatesEverywhere(libs.sympify(ExtractEquation(text)).valueAt)
  }

  /**
   * The explicit branch: extract the equation, sympify it, evaluate it at all
   * 400 samples, draw the curve with legend "y = " + equation.
   */
  function PlotExplicit(text: string, libs: Libraries): (r: Result<Reply>)
    ensures libs.sympify(ExtractEquation(text)).SympifyRaised? ==>
              r == Err(libs.sympify(ExtractEquation(text)).message)
    ensures r.Ok? <==>
              libs.sympify(ExtractEquation(text)).Expression? &&
              EvaluatesEverywhere(libs.sympify(ExtractEquation(text)).valueAt) &&
              libs.drawing == Saved
    ensures r.Ok? ==>
              r.value.Photo? && r.value.file == ExplicitFile && r.value.figure.plot.Curve? &&
              r.value.figure == CurveFigure(ExtractEquation(text), r.value.figure.plot.ys) &&
              IsCurveOf(r.value.figure.plot.ys, libs.sympify(ExtractEquation(text)).valueAt)
    ensures SamplesEvaluate(text, libs) && libs.drawing == NotSaved ==> r == Err(FileNotFound(ExplicitFile))
    ensures SamplesEvaluate(text, libs) && libs.drawing.DrawRaised? ==> r == Err(libs.drawing.message)
  {
    var equation := ExtractEquation(text);
    match libs.sympify(equation)
    case SympifyRaised(m) => Err(m)
    case Expression(valueAt) =>
      match SampleCurve(valueAt, CurveXs())
      case Err(m) => Err(m)
      case Ok(ys) => Deliver(ExplicitFile, CurveFigure(equation, ys), libs.drawing)
  }

  /**
   * A sample point whose evaluation raises, with every earlier one fine, makes
   * the whole explicit request fail with that point's exception.
   */
  lemma FailingSampleAbortsExplicit(text: string, libs: Libraries, k: nat)
    requires libs.sympify(ExtractEquation(text)).Expression?
    requires k < SampleCount
    requires forall i :: 0 <= i < k ==> libs.sympify(ExtractEquation(text)).valueAt(CurveXs()[i]).Ok?
    requires libs.sympify(ExtractEquation(text)).valueAt(CurveXs()[k]).Err?
    ensures PlotExplicit(text, libs) == Err(libs.sympify(ExtractEquation(text)).valueAt(CurveXs()[k]).message)
  {
    var valueAt := libs.sympify(ExtractEquation(text)).valueAt;
    var r := SampleCurve(valueAt, CurveXs());
    assert r.Err?;
    var j :| 0 <= j < SampleCount && valueAt(CurveXs()[j]) == Err(r.message) &&
             forall i :: 0 <= i < j ==> valueAt(CurveXs()[i]).Ok?;
    assert j == k;
  }

  /**
   * The implicit branch: always the zero contour of `X**2 + Y**2 - 1` over the
   * sample grid; the stripped text only becomes part of the title.
   */
  function PlotImplicit(text: string, libs: Libraries): (r: Result<Reply>)
    ensures r.Ok? <==> libs.drawing == Saved
    ensures r.Ok? ==>
              r.value.Photo? && r.value.file == ImplicitFile &&
              r.value.figure.plot == ZeroContour(SampleGrid(), UnitCircle) &&
              r.value.figure.title == "Неявная функция: " + Strip(text) &&
              r.value.figure.legend == None && r.value.figure.axes == ["X", "Y"] && r.value.figure.gridLines
    ensures libs.drawing == NotSaved ==> r == Err(FileNotFound(ImplicitFile))
    ensures libs.drawing.DrawRaised? ==> r == Err(libs.drawing.message)
  {
    var equation := Strip(text);
    Deliver(ImplicitFile,
            Figure(ZeroContour(SampleGrid(), UnitCircle), "Неявная функция: " + equation, None, ["X", "Y"], true),
            libs.drawing)
  }

  /** The implicit contour is drawn from `Z = X**2 + Y**2 - 1` at every point. */
  lemma ImplicitFieldIsUnitCircle(text: string, libs: Libraries, x: real, y: real)
    requires libs.drawing == Saved
    ensures PlotImplicit(text, libs).value.figure.plot.ZeroContour?
    ensures FieldAt(PlotImplicit(text, libs).value.figure.plot.field, x, y) == x * x + y * y - 1.0
    ensures FieldAt(PlotImplicit(text, libs).value.figure.plot.field, x, y) == 0.0 <==> x * x + y * y == 1.0
  {
  }

  /** Two implicit requests that draw at all draw the same contour, whatever their texts. */
  lemma ImplicitIgnoresText(t1: string, t2: string, libs: Libraries)
    requires libs.drawing == Saved
    ensures PlotImplicit(t1, libs).value.figure.plot == PlotImplicit(t2, libs).value.figure.plot
  {
  }

  /**
   * The 3D branch after a known formula matched: draw the surface and send it
   * if `os.path.exists` finds the file, otherwise say so (no exception).
   */
  function PlotSurface(equation: string, surface: Surface, libs: Libraries): (r: Result<Reply>)
    ensures r.Err? <==> libs.drawing.DrawRaised?
    ensures r.Err? ==> r.message == libs.drawing.message
    ensures libs.drawing == Saved ==>
              r == Ok(Photo(SurfaceFile,
                            Figure(SurfacePlot(SampleGrid(), surface), "3D график: " + equation, None,
                                   ["X", "Y", "Z"], false)))
    ensures libs.drawing == NotSaved ==> r == Ok(Message("Не удалось сохранить изображение.", NoKeyboard))
  {
    var figure := Figure(SurfacePlot(SampleGrid(), surface), "3D график: " + equation, None, ["X", "Y", "Z"], false);
    match libs.drawing
    case Saved => Ok(Photo(SurfaceFile, figure))
    case NotSaved => Ok(Message("Не удалось сохранить изображение.", NoKeyboard))
    case DrawRaised(m) => Err(m)
  }
}
