/**
 * The GDI+ surface: the family remap applied before a family handle is
 * created, and the size/style/unit override applied when a font is created
 * from a family handle, keyed by the name the handle reports.
 */
module Gdiplus {
  import opened Wrappers
  import opened WideText

  /** The override flags of a GDI+ profile. */
  datatype GpField = Size | Style | Unit

  /**
   * A GDI+ profile. `unit` holds a value of the `Unit` enumeration.
   * `style` holds a value of FontMod's own `Style` enumeration, numbered
   * 0..5; it is passed on to GDI+ as a `FontStyle` bit set, where the
   * numbers agree for regular..underline but not for strikeout.
   */
  datatype GPFontInfo = GPFontInfo(flags: set<GpField>, size: real, style: int, unit: int)

  /** A freshly declared GDI+ profile: no flags. */
  const EmptyGpFontInfo: GPFontInfo := GPFontInfo({}, 0.0, 0, 0)

  /** The style vocabulary, in the order of the enumeration's values. */
  const StyleNames: seq<string> := ["regular", "bold", "italic", "boldItalic", "underline", "strikeout"]

  /** The unit vocabulary, in the order of the enumeration's values. */
  const UnitNames: seq<string> := ["world", "display", "pixel", "point", "inch", "document", "millimeter"]

  /** The value of a style token; tokens are matched case-sensitively. */
  function StyleToken(s: string): Option<int> {
    if s == "regular" then Some(0)
    else if s == "bold" then Some(1)
    else if s == "italic" then Some(2)
    else if s == "boldItalic" then Some(3)
    else if s == "underline" then Some(4)
    else if s == "strikeout" then Some(5)
    else None
  }

  /** The value of a unit token; tokens are matched case-sensitively. */
  function UnitToken(s: string): Option<int> {
    if s == "world" then Some(0)
    else if s == "display" then Some(1)
    else if s == "pixel" then Some(2)
    else if s == "point" then Some(3)
    else if s == "inch" then Some(4)
    else if s == "document" then Some(5)
    else if s == "millimeter" then Some(6)
    else None
  }

  /**
   * The style tokens are exactly the vocabulary, and each one denotes its
   * position in it.
   */
  lemma StyleTokensMatchVocabulary(s: string)
    ensures StyleToken(s).Some? <==> s in StyleNames
    ensures StyleToken(s).Some? ==> 0 <= StyleToken(s).value < |StyleNames| && StyleNames[StyleToken(s).value] == s
  {
  }

  /** The same for the unit tokens. */
  lemma UnitTokensMatchVocabulary(s: string)
    ensures UnitToken(s).Some? <==> s in UnitNames
    ensures UnitToken(s).Some? ==> 0 <= UnitToken(s).value < |UnitNames| && UnitNames[UnitToken(s).value] == s
  {
  }

  /** The GDI+ `FontStyle` bits. */
  const FontStyleBold: int := 1
  const FontStyleItalic: int := 2
  const FontStyleUnderline: int := 4
  const FontStyleStrikeout: int := 8

  /**
   * The `strikeout` token denotes 5, which GDI+ reads as bold and
   * underline; the strikeout bit is never set by it.
   */
  lemma StrikeoutTokenIsBoldUnderline(toU32: string -> Option<u32>)
    ensures ParseStyle("strikeout", toU32) == Some(FontStyleBold + FontStyleUnderline)
    ensures ParseStyle("strikeout", toU32) != Some(FontStyleStrikeout)
  {
  }

  /**
   * A `uint32_t` converted to an `int`-based enumeration: the 32-bit
   * two's-complement reading of the same bits.
   */
  function Int32Of(n: u32): (r: int)
    ensures -0x8000_0000 <= r < 0x8000_0000
    ensures (r - n) % 0x1_0000_0000 == 0
    ensures n < 0x8000_0000 ==> r == n
  {
    if n < 0x8000_0000 then n else n - 0x1_0000_0000
  }

  /**
   * A style setting: a token, else a number read as `uint32_t`; `None`
   * when it is neither.
   */
  function ParseStyle(text: string, toU32: string -> Option<u32>): (r: Option<int>)
    ensures text in StyleNames ==> r.Some? && 0 <= r.value < |StyleNames| && StyleNames[r.value] == text
    ensures text !in StyleNames ==> (r.Some? <==> toU32(text).Some?)
    ensures text !in StyleNames && toU32(text).Some? ==> r.value == Int32Of(toU32(text).value)
  {
    StyleTokensMatchVocabulary(text);
    match StyleToken(text)
    case Some(v) => Some(v)
    case None =>
      match toU32(text)
      case Some(n) => Some(Int32Of(n))
      case None => None
  }

  /** A unit setting: a token, else a number read as `uint32_t`; `None` when it is neither. */
  function ParseUnit(text: string, toU32: string -> Option<u32>): (r: Option<int>)
    ensures text in UnitNames ==> r.Some? && 0 <= r.value < |UnitNames| && UnitNames[r.value] == text
    ensures text !in UnitNames ==> (r.Some? <==> toU32(text).Some?)
    ensures text !in UnitNames && toU32(text).Some? ==> r.value == Int32Of(toU32(text).value)
  {
    UnitTokensMatchVocabulary(text);
    match UnitToken(text)
    case Some(v) => Some(v)
    case None =>
      match toU32(text)
      case Some(n) => Some(Int32Of(n))
      case None => None
  }

  /**
   * The `GdipCreateFontFamilyFromName` hook: the family name actually
   * requested from GDI+.
   */
  function RemapFamily(families: map<string, string>, name: string): (r: string)
    ensures name !in families ==> r == name
    ensures name in families ==> r == families[name]
    ensures r == name || r in families.Values
  {
    if name in families then families[name] else name
  }

  /** The arguments of `GdipCreateFont` that a profile may replace. */
  datatype GpFontArgs = GpFontArgs(emSize: real, style: int, unit: int)

  /**
   * The `GdipCreateFont` hook. `familyName` is the buffer filled by
   * `GdipGetFamilyName`, `None` when that call fails; the lookup key is the
   * C string in it. Each argument is replaced only when the profile found
   * under that key flags it.
   */
  function OverrideGpFont(fonts: map<string, GPFontInfo>, familyName: Option<string>, a: GpFontArgs): (r: GpFontArgs)
    ensures familyName.None? || CStr(familyName.value) !in fonts ==> r == a
    ensures familyName.Some? && CStr(familyName.value) in fonts ==>
      var info := fonts[CStr(familyName.value)];
      && r.emSize == (if Size in info.flags then info.size else a.emSize)
      && r.style == (if Style in info.flags then info.style else a.style)
      && r.unit == (if Unit in info.flags then info.unit else a.unit)
  {
    match familyName
    case None => a
    case Some(buffer) =>
      var name := CStr(buffer);
      if name !in fonts then a
      else
        var info := fonts[name];
        GpFontArgs(
          if Size in info.flags then info.size else a.emSize,
          if Style in info.flags then info.style else a.style,
          if Unit in info.flags then info.unit else a.unit)
  }

  /**
   * An application's two-call sequence: create a family from `requested`
   * (through the remap), then create a font from it. `reportedName` stands
   * for GDI+: the name a family created from a given name reports back.
   */
  function CreateFontFromName(
    families: map<string, string>, fonts: map<string, GPFontInfo>,
    requested: string, reportedName: string -> Option<string>, a: GpFontArgs): GpFontArgs
  {
    OverrideGpFont(fonts, reportedName(RemapFamily(families, requested)), a)
  }

  /**
   * The attribute override is keyed by the reported family name only: a
   * profile stored under any other name, the requested one included,
   * changes nothing.
   */
  lemma OverrideKeyedByReportedName(
    families: map<string, string>, fonts: map<string, GPFontInfo>,
    requested: string, reportedName: string -> Option<string>, a: GpFontArgs,
    other: string, info: GPFontInfo)
    requires reportedName(RemapFamily(families, requested)).Some?
    requires other != CStr(reportedName(RemapFamily(families, requested)).value)
    ensures CreateFontFromName(families, fonts[other := info], requested, reportedName, a)
         == CreateFontFromName(families, fonts, requested, reportedName, a)
  {
  }

  /**
   * Requesting "Foo" remapped to "Bar": a profile under "Bar" applies, one
   * under "Foo" does not.
   */
  lemma RemapThenOverrideExample(reportedName: string -> Option<string>)
    requires forall n :: reportedName(n) == Some(n)
    ensures var bold := GPFontInfo({Style}, 0.0, 1, 0);
      var args := GpFontArgs(12.0, 0, 3);
      && CreateFontFromName(map["Foo" := "Bar"], map["Bar" := bold], "Foo", reportedName, args) == GpFontArgs(12.0, 1, 3)
      && CreateFontFromName(map["Foo" := "Bar"], map["Foo" := bold], "Foo", reportedName, args) == args
  {
    var bar := reportedName("Bar");
    assert bar == Some("Bar");
    CStrOfClean("Bar");
  }
}
