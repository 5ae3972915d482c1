/** A text span that swaps in a typeface and fakes the bold and italic the
    previous typeface had but the new one lacks. Styles are 32-bit masks as
    on the host; the skew is a plain value that is only ever assigned. */
module TypefaceSpan {
  import opened Basics

  type Style = bv32

  const NORMAL: Style := 0
  const BOLD: Style := 1
  const ITALIC: Style := 2
  const BOLD_ITALIC: Style := 3

  /** The horizontal skew that fakes italic. */
  const FAKE_ITALIC_SKEW: real := -0.25

  /** A typeface: an identity and its style mask. */
  datatype Typeface = Typeface(id: nat, style: Style)

  /** The paint state the span reads and writes. */
  datatype Paint = Paint(typeface: Option<Typeface>, fakeBold: bool, skewX: real)

  datatype Span = Span(typeface: Typeface)

  datatype IllegalArgument = IllegalArgument(message: string)

  /** Construction refuses a null typeface. */
  function NewSpan(typeface: Option<Typeface>): (r: Result<Span, IllegalArgument>)
    ensures r.Success? <==> typeface.Some?
    ensures typeface.Some? ==> r.value.typeface == typeface.value
    ensures typeface.None? ==> r == Failure(IllegalArgument("typeface is null"))
  {
    match typeface
    case None => Failure(IllegalArgument("typeface is null"))
    case Some(t) => Success(Span(t))
  }

  predicate HasStyle(style: Style, bit: Style) {
    style & bit != 0
  }

  /** The style of the paint's typeface; a paint without one is plain. */
  function OldStyle(paint: Paint): Style {
    match paint.typeface
    case None => NORMAL
    case Some(t) => t.style
  }

  /** The bits the old style has and the new one lacks. */
  function FakeStyle(oldStyle: Style, newStyle: Style): (fake: Style)
    ensures HasStyle(fake, BOLD) <==> HasStyle(oldStyle, BOLD) && !HasStyle(newStyle, BOLD)
    ensures HasStyle(fake, ITALIC) <==> HasStyle(oldStyle, ITALIC) && !HasStyle(newStyle, ITALIC)
    ensures fake & newStyle == 0
    ensures fake | oldStyle == oldStyle
  {
    oldStyle & !newStyle
  }

  /** Applying the span to a paint: fake bold is switched on, never off,
      when bold is lost; the italic skew is set when italic is lost and kept
      otherwise; the typeface is always replaced. */
  function Apply(span: Span, paint: Paint): (r: Paint)
    ensures r.typeface == Some(span.typeface)
    ensures r.fakeBold <==>
      paint.fakeBold || (HasStyle(OldStyle(paint), BOLD) && !HasStyle(span.typeface.style, BOLD))
    ensures r.skewX ==
      if HasStyle(OldStyle(paint), ITALIC) && !HasStyle(span.typeface.style, ITALIC)
      then FAKE_ITALIC_SKEW else paint.skewX
  {
    var fake := FakeStyle(OldStyle(paint), span.typeface.style);
    var bolded := if HasStyle(fake, BOLD) then paint.(fakeBold := true) else paint;
    var skewed := if HasStyle(fake, ITALIC) then bolded.(skewX := FAKE_ITALIC_SKEW) else bolded;
    skewed.(typeface := Some(span.typeface))
  }

  function UpdateDrawState(span: Span, paint: Paint): (r: Paint)
    ensures r.typeface == Some(span.typeface)
    ensures r.fakeBold <==>
      paint.fakeBold || (HasStyle(OldStyle(paint), BOLD) && !HasStyle(span.typeface.style, BOLD))
    ensures r.skewX ==
      if HasStyle(OldStyle(paint), ITALIC) && !HasStyle(span.typeface.style, ITALIC)
      then FAKE_ITALIC_SKEW else paint.skewX
  {
    Apply(span, paint)
  }

  /** The measuring pass has the same effect as the drawing pass. */
  function UpdateMeasureState(span: Span, paint: Paint): (r: Paint)
    ensures r == UpdateDrawState(span, paint)
  {
    Apply(span, paint)
  }

  /** Applying the span a second time changes nothing: the paint then
      already carries the span's typeface, so nothing more is faked. */
  lemma ApplyIdempotent(span: Span, paint: Paint)
    ensures Apply(span, Apply(span, paint)) == Apply(span, paint)
  {
  }

  /** A paint without a typeface gets only the typeface. */
  lemma ApplyToPlainPaint(span: Span, paint: Paint)
    requires paint.typeface.None?
    ensures Apply(span, paint) == paint.(typeface := Some(span.typeface))
  {
  }

  /** Going from a bold italic typeface to a plain one fakes both. */
  lemma BoldItalicToNormal(paint: Paint, t: Typeface)
    requires paint.typeface.Some? && paint.typeface.value.style == BOLD_ITALIC
    requires t.style == NORMAL
    ensures var r := Apply(Span(t), paint);
            r.fakeBold && r.skewX == FAKE_ITALIC_SKEW && r.typeface == Some(t)
  {
  }
}
