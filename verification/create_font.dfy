/**
 * The `CreateFontW` hook: its arguments packed into a font description,
 * which then goes through the same path as `CreateFontIndirectExW`.
 */
module CreateFont {
  import opened Wrappers
  import opened WideText
  import opened LogFonts
  import opened Override
  import opened Resolver

  /** The arguments of `CreateFontW`; `faceName` is `None` for a null pointer. */
  datatype CreateFontArgs = CreateFontArgs(
    height: int,
    width: int,
    escapement: int,
    orientation: int,
    weight: int,
    italic: u32,
    underline: u32,
    strikeOut: u32,
    charSet: u32,
    outPrecision: u32,
    clipPrecision: u32,
    quality: u32,
    pitchAndFamily: u32,
    faceName: Option<string>)

  /** A `(BYTE)` cast of a `DWORD`: the low eight bits. */
  function LowByte(x: u32): (r: byte)
    ensures (x - r) % 0x100 == 0
    ensures x < 0x100 ==> r == x
  {
    x % 0x100
  }

  /**
   * The description built from the arguments: sizes copied, flag and enum
   * arguments truncated to a byte, the face copied into its buffer (empty
   * for a null pointer).
   */
  function PackLogFont(a: CreateFontArgs): (lf: LogFont)
    ensures ValidFace(lf.face)
    ensures a.faceName.None? ==> lf.face == ""
    ensures a.faceName.Some? ==> lf.face == FaceCopy(a.faceName.value)
    ensures lf.height == a.height && lf.width == a.width && lf.weight == a.weight
    ensures lf.escapement == a.escapement && lf.orientation == a.orientation
    // every byte field keeps its argument modulo 256
    ensures (a.italic - lf.italic) % 0x100 == 0 && (a.underline - lf.underline) % 0x100 == 0
    ensures (a.strikeOut - lf.strikeOut) % 0x100 == 0 && (a.charSet - lf.charSet) % 0x100 == 0
    ensures (a.outPrecision - lf.outPrecision) % 0x100 == 0 && (a.clipPrecision - lf.clipPrecision) % 0x100 == 0
    ensures (a.quality - lf.quality) % 0x100 == 0 && (a.pitchAndFamily - lf.pitchAndFamily) % 0x100 == 0
  {
    LogFont(
      a.height, a.width, a.escapement, a.orientation, a.weight,
      LowByte(a.italic), LowByte(a.underline), LowByte(a.strikeOut),
      LowByte(a.charSet), LowByte(a.outPrecision), LowByte(a.clipPrecision),
      LowByte(a.quality), LowByte(a.pitchAndFamily),
      match a.faceName case Some(s) => FaceCopy(s) case None => "")
  }

  /** The `CreateFontW` call a caller makes to ask for `lf`. */
  function ArgsFor(lf: LogFont): CreateFontArgs {
    CreateFontArgs(
      lf.height, lf.width, lf.escapement, lf.orientation, lf.weight,
      lf.italic, lf.underline, lf.strikeOut, lf.charSet, lf.outPrecision,
      lf.clipPrecision, lf.quality, lf.pitchAndFamily, Some(lf.face))
  }

  /** Packing the arguments that describe a description gives that description back. */
  lemma PackArgsFor(lf: LogFont)
    requires ValidFace(lf.face)
    ensures PackLogFont(ArgsFor(lf)) == lf
  {
    FaceCopyOfValid(lf.face);
  }

  /** The description `CreateFontW` finally hands to the real function. */
  function CreateFontW(store: map<string, FontInfo>, a: CreateFontArgs, installed: string -> bool): (r: LogFont)
    ensures Resolve(store, PackLogFont(a).face, installed).profile.None? ==> r == PackLogFont(a)
    ensures Resolve(store, PackLogFont(a).face, installed).profile.Some? ==>
      r == OverrideLogFont(Resolve(store, PackLogFont(a).face, installed).profile.value, PackLogFont(a))
  {
    CStrOfClean(PackLogFont(a).face);
    CreateFontIndirectEx(store, PackLogFont(a), installed)
  }
}
