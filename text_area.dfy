/**
 * StGLTextArea: the text widget's font-size table, its margin, border and colour
 * setters, and the rule that fits the widget's height to its formatted text.
 */
module TextArea {
  import opened Geometry

  /** The FontSize enumerators, in declaration order. */
  const SizeSmallest: int := 0
  const SizeSmall: int := 1
  const SizeNormal: int := 2
  const SizeBig: int := 3
  const SizeBiggest: int := 4
  const SizeDouble: int := 5

  /** getFontSize: the pixel size of an enumerator; any other value is returned as it is. */
  function FontSizePx(size: int): (px: int)
    ensures SizeSmallest <= size <= SizeDouble ==> 10 <= px <= 28
    ensures !(SizeSmallest <= size <= SizeDouble) ==> px == size
  {
    if size == SizeSmallest then 10
    else if size == SizeSmall then 12
    else if size == SizeNormal then 16
    else if size == SizeBig then 18
    else if size == SizeBiggest then 20
    else if size == SizeDouble then 28
    else size
  }

  /** The pixel size of each enumerator. */
  lemma FontSizeTable()
    ensures FontSizePx(SizeSmallest) == 10 && FontSizePx(SizeSmall) == 12
    ensures FontSizePx(SizeNormal) == 16 && FontSizePx(SizeBig) == 18
    ensures FontSizePx(SizeBiggest) == 20 && FontSizePx(SizeDouble) == 28
  {
  }

  /** Each enumerator is larger than the one declared before it. */
  lemma FontSizeStepsUp(size: int)
    requires SizeSmallest <= size < SizeDouble
    ensures FontSizePx(size) < FontSizePx(size + 1)
  {
  }

  /** The pixel size strictly increases along the declaration order. */
  lemma {:induction false} FontSizeStrictlyIncreasing(a: int, b: int)
    requires SizeSmallest <= a < b <= SizeDouble
    ensures FontSizePx(a) < FontSizePx(b)
    decreases b - a
  {
    FontSizeStepsUp(b - 1);
    if a < b - 1 {
      FontSizeStrictlyIncreasing(a, b - 1);
    }
  }

  /** StGLVec3 as a colour. The toolkit stores floats; the model uses integers. */
  datatype Rgb = Rgb(r: int, g: int, b: int)

  /** StGLVec4 as a colour with alpha. */
  datatype Rgba = Rgba(r: int, g: int, b: int, a: int)

  /** The colour components of a colour with alpha. */
  function RgbOf(c: Rgba): Rgb
  {
    Rgb(c.r, c.g, c.b)
  }

  /** A set*Color call: the target takes the given colour and keeps its own alpha. */
  function WithRgb(target: Rgba, c: Rgb): (r: Rgba)
    ensures RgbOf(r) == c
    ensures r.a == target.a
  {
    target.(r := c.r, g := c.g, b := c.b)
  }

  /** Setting a colour twice keeps the later one; setting a colour to its own components changes nothing. */
  lemma WithRgbLastWins(target: Rgba, c1: Rgb, c2: Rgb)
    ensures WithRgb(WithRgb(target, c1), c2) == WithRgb(target, c2)
    ensures WithRgb(target, RgbOf(target)) == target
  {
  }

  /** stglInitAutoHeight's new rectangle: the bottom moves to the top plus the text height. */
  function FitHeight(rect: Rect, textBox: Rect): (r: Rect)
    ensures r.left == rect.left && r.right == rect.right && r.top == rect.top
    ensures Height(r) == Magnitude(Height(textBox))
  {
    rect.(bottom := rect.top + Magnitude(Height(textBox)))
  }

  /** Fitting the height a second time changes nothing, and the fitted rectangle is never upside down. */
  lemma FitHeightIdempotent(rect: Rect, textBox: Rect)
    ensures FitHeight(FitHeight(rect, textBox), textBox) == FitHeight(rect, textBox)
    ensures FitHeight(rect, textBox).top <= FitHeight(rect, textBox).bottom
  {
  }

  class TextArea {
    var rectPx: Rect              // the widget rectangle (StGLWidget::getRectPx / changeRectPx)
    var size: int                 // mySize
    var textColor: Rgba           // myTextColor
    var shadowColor: Rgba         // myShadowColor
    var backColor: Rgba           // myBackColor
    var borderColor: Rgba         // myBorderColor
    var marginLeft: int           // myMarginLeft
    var marginRight: int          // myMarginRight
    var marginTop: int            // myMarginTop
    var marginBottom: int         // myMarginBottom
    var textBndBox: Rect          // myTextBndBox
    var toShowBorder: bool        // myToShowBorder

    /**
     * getFontSize: the pixel size of this widget's size value, from the table FontSizePx
     * defines; a value outside the enumeration is returned as it is.
     */
    function GetFontSize(): (px: int)
      reads this
      ensures SizeSmallest <= size <= SizeDouble ==> 10 <= px <= 28
      ensures !(SizeSmallest <= size <= SizeDouble) ==> px == size
    {
      FontSizePx(size)
    }

    /** getMarginLeft: the stored left margin. */
    function GetMarginLeft(): (m: int)
      reads this
      ensures m == marginLeft
    {
      marginLeft
    }

    /** getMarginRight: the stored right margin. */
    function GetMarginRight(): (m: int)
      reads this
      ensures m == marginRight
    {
      marginRight
    }

    /** setMarginLeft: the left margin reads back as m; the right margin is untouched. */
    method SetMarginLeft(m: int)
      modifies this`marginLeft
      ensures GetMarginLeft() == m
      ensures GetMarginRight() == old(GetMarginRight())
    {
      marginLeft := m;
    }

    /** setMarginRight: the right margin reads back as m; the left margin is untouched. */
    method SetMarginRight(m: int)
      modifies this`marginRight
      ensures GetMarginRight() == m
      ensures GetMarginLeft() == old(GetMarginLeft())
    {
      marginRight := m;
    }

    /** setBorder */
    method SetBorder(show: bool)
      modifies this`toShowBorder
      ensures toShowBorder == show
    {
      toShowBorder := show;
    }

    /** setBorderColor: only the border colour changes, and it keeps its alpha. */
    method SetBorderColor(c: Rgb)
      modifies this`borderColor
      ensures borderColor == WithRgb(old(borderColor), c)
      ensures backColor == old(backColor) && textColor == old(textColor) && shadowColor == old(shadowColor)
    {
      borderColor := WithRgb(borderColor, c);
    }

    /** setBackColor: only the background colour changes, and it keeps its alpha. */
    method SetBackColor(c: Rgb)
      modifies this`backColor
      ensures backColor == WithRgb(old(backColor), c)
      ensures borderColor == old(borderColor) && textColor == old(textColor) && shadowColor == old(shadowColor)
    {
      backColor := WithRgb(backColor, c);
    }

    /** setTextColor: only the text colour changes, and it keeps its alpha. */
    method SetTextColor(c: Rgb)
      modifies this`textColor
      ensures textColor == WithRgb(old(textColor), c)
      ensures borderColor == old(borderColor) && backColor == old(backColor) && shadowColor == old(shadowColor)
    {
      textColor := WithRgb(textColor, c);
    }

    /** getTextHeight: the height of the text bounding box, never negative. */
    function GetTextHeight(): (h: int)
      reads this
      ensures 0 <= h
      ensures h == Height(textBndBox) || h == -Height(textBndBox)
    {
      Magnitude(Height(textBndBox))
    }

    /** getTextWidth: the width of the text bounding box, never negative. */
    function GetTextWidth(): (w: int)
      reads this
      ensures 0 <= w
      ensures w == Width(textBndBox) || w == -Width(textBndBox)
    {
      Magnitude(Width(textBndBox))
    }

    /**
     * stglInitAutoHeight, where initOk is what stglInit returned and formatted is the text
     * bounding box its formatting computed: on failure nothing changes; on success the
     * widget keeps that box and the rectangle's bottom becomes its top plus the text height.
     */
    method StglInitAutoHeight(initOk: bool, formatted: Rect) returns (ok: bool)
      modifies this`rectPx, this`textBndBox
      ensures ok == initOk
      ensures !ok ==> rectPx == old(rectPx) && textBndBox == old(textBndBox)
      ensures ok ==> textBndBox == formatted
      ensures ok ==> rectPx == FitHeight(old(rectPx), formatted)
      ensures ok ==> rectPx.bottom == rectPx.top + GetTextHeight()
    {
      if !initOk {
        return false;
      }
      textBndBox := formatted;
      rectPx := rectPx.(bottom := rectPx.top + GetTextHeight());
      return true;
    }
  }
}
