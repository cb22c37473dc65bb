/**
 * The records the override engine works on: the font description of a
 * creation request (`LOGFONTW`) and an override profile (`FontInfo`).
 */
module LogFonts {
  import opened WideText

  /**
   * The `LOGFONTW` part of a font-creation request. Sizes are signed: a
   * negative height asks for a character height, a positive one for a cell
   * height, and zero for the default.
   */
  datatype LogFont = LogFont(
    height: int,
    width: int,
    escapement: int,
    orientation: int,
    weight: int,
    italic: byte,
    underline: byte,
    strikeOut: byte,
    charSet: byte,
    outPrecision: byte,
    clipPrecision: byte,
    quality: byte,
    pitchAndFamily: byte,
    face: string)

  /** The all-zero record (`LOGFONT x = {}`). */
  const ZeroLogFont: LogFont :=
    LogFont(0, 0, 0, 0, 0, 0, 0, 0, 0, 0, 0, 0, 0, "")

  /** The override flags of a profile, one per field it may set. */
  datatype Field =
    | Height | Width | Weight | Italic | Underline | StrikeOut
    | Charset | OutPrecision | ClipPrecision | Quality | PitchAndFamily
    | HeightOffset | WidthOffset | HeightScale | WidthScale

  /**
   * An override profile. A field is authoritative only when its flag is in
   * `flags`; `name` applies whenever it is non-empty.
   */
  datatype FontInfo = FontInfo(
    name: string,
    flags: set<Field>,
    height: int,
    width: int,
    heightOffset: int,
    widthOffset: int,
    heightScale: real,
    widthScale: real,
    weight: int,
    italic: bool,
    underLine: bool,
    strikeOut: bool,
    charSet: byte,
    outPrecision: byte,
    clipPrecision: byte,
    quality: byte,
    pitchAndFamily: byte)

  /**
   * A freshly declared profile: no name, no flags. The value fields are
   * never read while their flags are unset, so zeros stand in for them.
   */
  const EmptyFontInfo: FontInfo :=
    FontInfo("", {}, 0, 0, 0, 0, 0.0, 0.0, 0, false, false, false, 0, 0, 0, 0, 0)

  /** The offset and scale flags: the ones whose effect depends on the current size. */
  const RelativeFields: set<Field> := {HeightOffset, WidthOffset, HeightScale, WidthScale}

  /** `BYTE` value of a C++ `bool`. */
  function ByteOf(b: bool): (r: byte)
    ensures r == 0 <==> !b
    ensures r <= 1
  {
    if b then 1 else 0
  }
}
