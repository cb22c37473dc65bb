/**
 * The descriptor mutator: `OverrideLogFont` applies a profile to a font
 * description in a fixed order, so that offsets and scales see the sizes
 * the absolute overrides of the same call produced.
 */
module Override {
  import opened WideText
  import opened LogFonts

  function Max(a: int, b: int): int { if a >= b then a else b }
  function Min(a: int, b: int): int { if a <= b then a else b }
  function Abs(a: int): nat { if a >= 0 then a else -a }

  /**
   * C's `lround` on an exact real: the nearest integer, halfway cases
   * rounded away from zero.
   */
  function LRound(x: real): (r: int)
    ensures x >= 0.0 ==> (r as real) - 0.5 <= x < (r as real) + 0.5
    ensures x < 0.0 ==> (r as real) - 0.5 < x <= (r as real) + 0.5
  {
    if x >= 0.0 then (x + 0.5).Floor else -((-x + 0.5).Floor)
  }

  /** A size multiplied by a scale factor and rounded. */
  function Scaled(v: int, s: real): int {
    LRound(v as real * s)
  }

  /**
   * Height offset of a non-zero height: the offset grows or shrinks the
   * magnitude, the sign (the sizing mode) is kept, and the result is never 0.
   */
  function OffsetHeight(h: int, off: int): (r: int)
    requires h != 0
    ensures r != 0
    ensures (r > 0) == (h > 0)
    ensures Abs(r) == Max(1, Abs(h) + off)
  {
    if h > 0 then Max(1, h + off) else Min(-1, h - off)
  }

  /** Width offset of a non-zero width: the sum, clamped to at least 1. */
  function OffsetWidth(w: int, off: int): (r: int)
    requires w != 0
    ensures r >= 1
    ensures r == w + off || (r == 1 && w + off < 1)
  {
    Max(1, w + off)
  }

  /** The height after the absolute step of `OverrideLogFont`. */
  function BaseHeight(p: FontInfo, lf: LogFont): int {
    if Height in p.flags then p.height else lf.height
  }

  /** The width after the absolute step of `OverrideLogFont`. */
  function BaseWidth(p: FontInfo, lf: LogFont): int {
    if Width in p.flags then p.width else lf.width
  }

  /**
   * The height steps of `OverrideLogFont` in their order: absolute, offset,
   * scale, each relative step only on a non-zero height. No height step
   * reads the width and no width step reads the height, so the height and
   * width steps may be taken apart without changing the outcome.
   */
  function OverrideHeight(p: FontInfo, h: int): (r: int)
    ensures Height !in p.flags && HeightOffset !in p.flags && HeightScale !in p.flags ==> r == h
    // `base` is the height the absolute step leaves
    ensures var base := if Height in p.flags then p.height else h;
      && (base == 0 ==> r == 0)
      && (base != 0 && HeightScale !in p.flags ==>
            r != 0 && (r > 0 <==> base > 0)
            && Abs(r) == (if HeightOffset in p.flags then Max(1, Abs(base) + p.heightOffset) else Abs(base)))
      && (base != 0 && HeightScale in p.flags ==>
            r == Scaled(if HeightOffset in p.flags then OffsetHeight(base, p.heightOffset) else base, p.heightScale))
  {
    var h1 := if Height in p.flags then p.height else h;
    var h2 := if h1 != 0 && HeightOffset in p.flags then OffsetHeight(h1, p.heightOffset) else h1;
    if h2 != 0 && HeightScale in p.flags then Scaled(h2, p.heightScale) else h2
  }

  /** The width steps of `OverrideLogFont`: absolute, offset, scale. */
  function OverrideWidth(p: FontInfo, w: int): (r: int)
    ensures Width !in p.flags && WidthOffset !in p.flags && WidthScale !in p.flags ==> r == w
    // `base` is the width the absolute step leaves
    ensures var base := if Width in p.flags then p.width else w;
      && (base == 0 ==> r == 0)
      && (base != 0 && WidthScale !in p.flags ==>
            r == (if WidthOffset in p.flags then Max(1, base + p.widthOffset) else base))
      && (base != 0 && WidthScale in p.flags ==>
            r == Scaled(if WidthOffset in p.flags then OffsetWidth(base, p.widthOffset) else base, p.widthScale))
  {
    var w1 := if Width in p.flags then p.width else w;
    var w2 := if w1 != 0 && WidthOffset in p.flags then OffsetWidth(w1, p.widthOffset) else w1;
    if w2 != 0 && WidthScale in p.flags then Scaled(w2, p.widthScale) else w2
  }

  /**
   * Applies profile `p` to `lf`: face name, absolute height and width,
   * height and width offsets, height and width scales, then the
   * independent fields. Each relative step applies only when the size it
   * reads is non-zero at that point.
   */
  function OverrideLogFont(p: FontInfo, lf: LogFont): (r: LogFont)
    // escapement and orientation are never touched
    ensures r.escapement == lf.escapement && r.orientation == lf.orientation
    // the face changes only for a non-empty profile name, to a buffer-sized copy of it
    ensures p.name == "" ==> r.face == lf.face
    ensures p.name != "" ==> r.face == FaceCopy(p.name) && ValidFace(r.face)
    // the sizes go through their own steps, which never read the other dimension
    ensures r.height == OverrideHeight(p, lf.height) && r.width == OverrideWidth(p, lf.width)
    // sizes with no flag of their own stay as they were
    ensures Height !in p.flags && HeightOffset !in p.flags && HeightScale !in p.flags ==> r.height == lf.height
    ensures Width !in p.flags && WidthOffset !in p.flags && WidthScale !in p.flags ==> r.width == lf.width
    // the independent fields take the profile value exactly when flagged
    ensures r.weight == (if Weight in p.flags then p.weight else lf.weight)
    ensures r.italic == (if Italic in p.flags then ByteOf(p.italic) else lf.italic)
    ensures r.underline == (if Underline in p.flags then ByteOf(p.underLine) else lf.underline)
    ensures r.strikeOut == (if StrikeOut in p.flags then ByteOf(p.strikeOut) else lf.strikeOut)
    ensures r.charSet == (if Charset in p.flags then p.charSet else lf.charSet)
    ensures r.outPrecision == (if OutPrecision in p.flags then p.outPrecision else lf.outPrecision)
    ensures r.clipPrecision == (if ClipPrecision in p.flags then p.clipPrecision else lf.clipPrecision)
    ensures r.quality == (if Quality in p.flags then p.quality else lf.quality)
    ensures r.pitchAndFamily == (if PitchAndFamily in p.flags then p.pitchAndFamily else lf.pitchAndFamily)
  {
    ApplyAttributes(p, ApplySizes(p, ApplyFace(p, lf)))
  }

  /** Step 1: the face name, when the profile has a non-empty one. */
  function ApplyFace(p: FontInfo, lf: LogFont): LogFont {
    if p.name != "" then lf.(face := FaceCopy(p.name)) else lf
  }

  /** Steps 2 to 7: absolute sizes, offsets, scales. */
  function ApplySizes(p: FontInfo, lf: LogFont): LogFont {
    lf.(height := OverrideHeight(p, lf.height), width := OverrideWidth(p, lf.width))
  }

  /** Step 8: the fields with no interdependency. */
  function ApplyAttributes(p: FontInfo, lf: LogFont): LogFont {
    var f := p.flags;
    lf.(
      weight := if Weight in f then p.weight else lf.weight,
      italic := if Italic in f then ByteOf(p.italic) else lf.italic,
      underline := if Underline in f then ByteOf(p.underLine) else lf.underline,
      strikeOut := if StrikeOut in f then ByteOf(p.strikeOut) else lf.strikeOut,
      charSet := if Charset in f then p.charSet else lf.charSet,
      outPrecision := if OutPrecision in f then p.outPrecision else lf.outPrecision,
      clipPrecision := if ClipPrecision in f then p.clipPrecision else lf.clipPrecision,
      quality := if Quality in f then p.quality else lf.quality,
      pitchAndFamily := if PitchAndFamily in f then p.pitchAndFamily else lf.pitchAndFamily)
  }

  /**
   * A zero height stays zero: no offset or scale applies to it, and an
   * absolute override to 0 switches them off.
   */
  lemma ZeroHeightStaysZero(p: FontInfo, lf: LogFont)
    requires BaseHeight(p, lf) == 0
    ensures OverrideLogFont(p, lf).height == 0
  {
  }

  /** The same for widths. */
  lemma ZeroWidthStaysZero(p: FontInfo, lf: LogFont)
    requires BaseWidth(p, lf) == 0
    ensures OverrideLogFont(p, lf).width == 0
  {
  }

  /**
   * Height offset without a scale: the height reached by the absolute step
   * keeps its sign, never becomes 0, and its magnitude moves by the offset
   * (floored at 1). This holds also when the absolute step turned a zero
   * height into a non-zero one.
   */
  lemma HeightOffsetGuard(p: FontInfo, lf: LogFont)
    requires HeightOffset in p.flags && HeightScale !in p.flags
    requires BaseHeight(p, lf) != 0
    ensures var h := OverrideLogFont(p, lf).height;
      && h != 0
      && (h > 0 <==> BaseHeight(p, lf) > 0)
      && Abs(h) == Max(1, Abs(BaseHeight(p, lf)) + p.heightOffset)
  {
  }

  /** Width offset without a scale: a non-zero width becomes `max(1, w + off)`. */
  lemma WidthOffsetGuard(p: FontInfo, lf: LogFont)
    requires WidthOffset in p.flags && WidthScale !in p.flags
    requires BaseWidth(p, lf) != 0
    ensures OverrideLogFont(p, lf).width >= 1
    ensures OverrideLogFont(p, lf).width == Max(1, BaseWidth(p, lf) + p.widthOffset)
  {
  }

  /**
   * Scale comes after offset: with both flags set on a non-zero height the
   * scale multiplies the offset height, which is itself never 0.
   */
  lemma ScaleAfterOffset(p: FontInfo, lf: LogFont)
    requires HeightOffset in p.flags && HeightScale in p.flags
    requires BaseHeight(p, lf) != 0
    ensures OverrideLogFont(p, lf).height
         == Scaled(OffsetHeight(BaseHeight(p, lf), p.heightOffset), p.heightScale)
  {
    var h1 := OffsetHeight(BaseHeight(p, lf), p.heightOffset);
    assert h1 != 0;
    assert OverrideHeight(p, lf.height) == Scaled(h1, p.heightScale);
  }

  /** A height scale without an offset multiplies the height the absolute step left. */
  lemma HeightScaleOnly(p: FontInfo, lf: LogFont)
    requires HeightScale in p.flags && HeightOffset !in p.flags
    requires BaseHeight(p, lf) != 0
    ensures OverrideLogFont(p, lf).height == Scaled(BaseHeight(p, lf), p.heightScale)
  {
  }

  /** A width scale without an offset multiplies the width the absolute step left. */
  lemma WidthScaleOnly(p: FontInfo, lf: LogFont)
    requires WidthScale in p.flags && WidthOffset !in p.flags
    requires BaseWidth(p, lf) != 0
    ensures OverrideLogFont(p, lf).width == Scaled(BaseWidth(p, lf), p.widthScale)
  {
  }

  /** For widths too, the scale multiplies the offset width, which is at least 1. */
  lemma WidthScaleAfterOffset(p: FontInfo, lf: LogFont)
    requires WidthOffset in p.flags && WidthScale in p.flags
    requires BaseWidth(p, lf) != 0
    ensures OverrideLogFont(p, lf).width
         == Scaled(OffsetWidth(BaseWidth(p, lf), p.widthOffset), p.widthScale)
  {
    var w1 := OffsetWidth(BaseWidth(p, lf), p.widthOffset);
    assert w1 != 0;
    assert OverrideWidth(p, lf.width) == Scaled(w1, p.widthScale);
  }

  /** A profile with neither offsets nor scales sets the sizes outright. */
  lemma AbsoluteOnlySizes(p: FontInfo, lf: LogFont)
    requires p.flags !! RelativeFields
    ensures OverrideLogFont(p, lf).height == BaseHeight(p, lf)
    ensures OverrideLogFont(p, lf).width == BaseWidth(p, lf)
  {
  }

  /**
   * Applying a profile with neither offsets nor scales a second time
   * changes nothing.
   */
  lemma OverrideIdempotent(p: FontInfo, lf: LogFont)
    requires p.flags !! RelativeFields
    ensures OverrideLogFont(p, OverrideLogFont(p, lf)) == OverrideLogFont(p, lf)
  {
    if p.name != "" {
      FaceCopyIdempotent(p.name);
    }
  }

  /** Offsets are not idempotent: a second application moves the height again. */
  lemma OffsetNotIdempotent()
    ensures var p := EmptyFontInfo.(flags := {HeightOffset}, heightOffset := 2);
      var lf := ZeroLogFont.(height := 10);
      OverrideLogFont(p, OverrideLogFont(p, lf)).height == 14
  {
  }

  /** The worked height-offset cases: (10, -15) gives 1 and (-10, 5) gives -15. */
  lemma HeightOffsetExamples()
    ensures OverrideLogFont(EmptyFontInfo.(flags := {HeightOffset}, heightOffset := -15), ZeroLogFont.(height := 10)).height == 1
    ensures OverrideLogFont(EmptyFontInfo.(flags := {HeightOffset}, heightOffset := 5), ZeroLogFont.(height := -10)).height == -15
  {
  }

  /** Rounding at the halfway points goes away from zero: 11 * 0.5 gives 6, -11 * 0.5 gives -6. */
  lemma ScaleRoundingExamples()
    ensures Scaled(11, 0.5) == 6
    ensures Scaled(-11, 0.5) == -6
    ensures Scaled(10, 0.25) == 3
  {
  }

  /**
   * Unlike the offsets, a scale is not guarded: it can turn a non-zero
   * height into 0.
   */
  lemma ScaleCanReachZero()
    ensures OverrideLogFont(EmptyFontInfo.(flags := {HeightScale}, heightScale := 0.25), ZeroLogFont.(height := 1)).height == 0
  {
  }
}
