/** The canvas size: the window minus the control panel's strip on the left,
    fitted to a 4:3 box. The same computation runs at start-up and whenever
    the window is resized. */
module CanvasFit {

  /** The aspect ratio (width over height) of the canvas. */
  const BaseAspect: real := 4.0 / 3.0

  /** The width of the control panel strip to the left of the canvas. */
  const GuiWidth: real := 300.0

  datatype Size = Size(width: real, height: real)

  /** The canvas size for a window of the given size: as wide as the usable
      width allows, unless the height that width needs exceeds the window's
      height; then as high as the window and 4/3 of that wide. */
  function FitToWindow(windowWidth: real, windowHeight: real): (fit: Size)
    ensures fit.width == fit.height * BaseAspect
    ensures fit.width <= windowWidth - GuiWidth && fit.height <= windowHeight
    ensures fit.width == windowWidth - GuiWidth || fit.height == windowHeight
  {
    var usableWidth := windowWidth - GuiWidth;
    var usableHeight := windowHeight;
    var targetHeight := usableWidth / BaseAspect;
    if targetHeight > usableHeight then
      Size(usableHeight * BaseAspect, usableHeight)
    else
      Size(usableWidth, targetHeight)
  }

  /** The fit is the largest 4:3 box that fits the usable area: any other
      4:3 box inside it is no wider and no higher. */
  lemma FitIsLargest(windowWidth: real, windowHeight: real, box: Size)
    requires box.width == box.height * BaseAspect
    requires box.width <= windowWidth - GuiWidth && box.height <= windowHeight
    ensures box.width <= FitToWindow(windowWidth, windowHeight).width
    ensures box.height <= FitToWindow(windowWidth, windowHeight).height
  {
    var fit := FitToWindow(windowWidth, windowHeight);
    if fit.width == windowWidth - GuiWidth {
      assert box.height * BaseAspect <= fit.height * BaseAspect;
    } else {
      assert box.height <= fit.height;
    }
  }

  /** A window at least as wide as the control panel gets a canvas of
      non-negative size; a narrower one gets a negative width, which the
      sizing code passes on as it is. */
  lemma FitNonNegative(windowWidth: real, windowHeight: real)
    requires 0.0 <= windowHeight
    ensures var fit := FitToWindow(windowWidth, windowHeight);
      GuiWidth <= windowWidth <==> 0.0 <= fit.width && 0.0 <= fit.height
  {
  }

  /** A 1280 by 720 window leaves 980 by 720, and the 4:3 box that fits is
      960 by 720: the height is the binding side. */
  lemma WideWindowExample()
    ensures FitToWindow(1280.0, 720.0) == Size(960.0, 720.0)
  {
  }
}
