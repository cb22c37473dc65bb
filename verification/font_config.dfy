/**
 * Reading override profiles from the configuration: `GetFontInfo` for one
 * profile mapping, and the `fonts` section that fills the profile store.
 */
module FontConfig {
  import opened Wrappers
  import opened WideText
  import opened LogFonts
  import opened ConfigTree

  /** The configuration key of each flagged field. */
  function KeyOf(f: Field): string {
    match f
    case Height => "size"
    case Width => "width"
    case HeightOffset => "sizeOffset"
    case WidthOffset => "widthOffset"
    case HeightScale => "sizeScale"
    case WidthScale => "widthScale"
    case Weight => "weight"
    case Italic => "italic"
    case Underline => "underLine"
    case StrikeOut => "strikeOut"
    case Charset => "charSet"
    case OutPrecision => "outPrecision"
    case ClipPrecision => "clipPrecision"
    case Quality => "quality"
    case PitchAndFamily => "pitchAndFamily"
  }

  /** The field a configuration key sets, if it names one. */
  function KeyField(key: string): (r: Option<Field>)
    ensures r.Some? ==> KeyOf(r.value) == key
  {
    if key == "size" then Some(Height)
    else if key == "width" then Some(Width)
    else if key == "sizeOffset" then Some(HeightOffset)
    else if key == "widthOffset" then Some(WidthOffset)
    else if key == "sizeScale" then Some(HeightScale)
    else if key == "widthScale" then Some(WidthScale)
    else if key == "weight" then Some(Weight)
    else if key == "italic" then Some(Italic)
    else if key == "underLine" then Some(Underline)
    else if key == "strikeOut" then Some(StrikeOut)
    else if key == "charSet" then Some(Charset)
    else if key == "outPrecision" then Some(OutPrecision)
    else if key == "clipPrecision" then Some(ClipPrecision)
    else if key == "quality" then Some(Quality)
    else if key == "pitchAndFamily" then Some(PitchAndFamily)
    else None
  }

  /** Each field has its own key, and that key reads back as the field. */
  lemma KeyFieldInverse(f: Field)
    ensures KeyField(KeyOf(f)) == Some(f)
  {
  }

  /**
   * The keys that set the face name of a profile, and that ask for a
   * family remap in the GDI+ section.
   */
  predicate IsNameKey(key: string) {
    key == "replace" || key == "name"
  }

  /** No key is both a name key and a field key. */
  lemma NameKeysSetNoField(key: string)
    requires IsNameKey(key)
    ensures KeyField(key) == None
  {
  }

  /** The value of one field of a profile, whatever its type. */
  datatype FieldValue = IntValue(i: int) | RealValue(x: real) | BoolValue(b: bool) | ByteValue(v: byte)

  /** The value a profile holds for field `f`. */
  function Project(info: FontInfo, f: Field): FieldValue {
    match f
    case Height => IntValue(info.height)
    case Width => IntValue(info.width)
    case HeightOffset => IntValue(info.heightOffset)
    case WidthOffset => IntValue(info.widthOffset)
    case HeightScale => RealValue(info.heightScale)
    case WidthScale => RealValue(info.widthScale)
    case Weight => IntValue(info.weight)
    case Italic => BoolValue(info.italic)
    case Underline => BoolValue(info.underLine)
    case StrikeOut => BoolValue(info.strikeOut)
    case Charset => ByteValue(info.charSet)
    case OutPrecision => ByteValue(info.outPrecision)
    case ClipPrecision => ByteValue(info.clipPrecision)
    case Quality => ByteValue(info.quality)
    case PitchAndFamily => ByteValue(info.pitchAndFamily)
  }

  /** The value a scalar converts to for field `f`, by the field's C++ type. */
  function ParseField(f: Field, text: string, c: Conv): FieldValue {
    match f
    case Height => IntValue(c.toLong(text))
    case Width => IntValue(c.toLong(text))
    case HeightOffset => IntValue(c.toLong(text))
    case WidthOffset => IntValue(c.toLong(text))
    case HeightScale => RealValue(c.toDouble(text))
    case WidthScale => RealValue(c.toDouble(text))
    case Weight => IntValue(c.toLong(text))
    case Italic => BoolValue(c.toBool(text))
    case Underline => BoolValue(c.toBool(text))
    case StrikeOut => BoolValue(c.toBool(text))
    case Charset => ByteValue(c.toByte(text))
    case OutPrecision => ByteValue(c.toByte(text))
    case ClipPrecision => ByteValue(c.toByte(text))
    case Quality => ByteValue(c.toByte(text))
    case PitchAndFamily => ByteValue(c.toByte(text))
  }

  /** `info >> field`: stores the converted scalar in field `f` and nowhere else. */
  function SetField(info: FontInfo, f: Field, text: string, c: Conv): (r: FontInfo)
    ensures Project(r, f) == ParseField(f, text, c)
    ensures forall g :: g != f ==> Project(r, g) == Project(info, g)
    ensures r.name == info.name && r.flags == info.flags
  {
    match f
    case Height => info.(height := c.toLong(text))
    case Width => info.(width := c.toLong(text))
    case HeightOffset => info.(heightOffset := c.toLong(text))
    case WidthOffset => info.(widthOffset := c.toLong(text))
    case HeightScale => info.(heightScale := c.toDouble(text))
    case WidthScale => info.(widthScale := c.toDouble(text))
    case Weight => info.(weight := c.toLong(text))
    case Italic => info.(italic := c.toBool(text))
    case Underline => info.(underLine := c.toBool(text))
    case StrikeOut => info.(strikeOut := c.toBool(text))
    case Charset => info.(charSet := c.toByte(text))
    case OutPrecision => info.(outPrecision := c.toByte(text))
    case ClipPrecision => info.(clipPrecision := c.toByte(text))
    case Quality => info.(quality := c.toByte(text))
    case PitchAndFamily => info.(pitchAndFamily := c.toByte(text))
  }

  /**
   * One entry of a profile mapping. Entries without a scalar value and
   * unrecognised keys change nothing; a name key sets the name (empty when
   * the conversion fails); a field key sets the field and its flag.
   */
  function ApplyEntry(info: FontInfo, e: Entry, c: Conv): FontInfo {
    if !e.node.Scalar? then info
    else if IsNameKey(e.key) then info.(name := c.utf16(e.node.text).GetOr(""))
    else
      match KeyField(e.key)
      case None => info
      case Some(f) => SetField(info, f, e.node.text, c).(flags := info.flags + {f})
  }

  /** The entries of a profile mapping, applied in document order. */
  function ReadFontInfo(info: FontInfo, es: seq<Entry>, c: Conv): FontInfo
    decreases |es|
  {
    if es == [] then info
    else ApplyEntry(ReadFontInfo(info, es[..|es| - 1], c), es[|es| - 1], c)
  }

  /** `GetFontInfo`: a profile read from a mapping's entries. */
  function GetFontInfo(es: seq<Entry>, c: Conv): FontInfo {
    ReadFontInfo(EmptyFontInfo, es, c)
  }

  /** The text of the last scalar entry whose key is in `keys`. */
  function LastScalar(es: seq<Entry>, keys: set<string>): (r: Option<string>)
    ensures r.Some? <==> exists i :: 0 <= i < |es| && es[i].node.Scalar? && es[i].key in keys
    decreases |es|
  {
    if es == [] then None
    else
      var e := es[|es| - 1];
      if e.node.Scalar? && e.key in keys then Some(e.node.text)
      else
        var r := LastScalar(es[..|es| - 1], keys);
        assert forall i :: 0 <= i < |es| - 1 ==> es[..|es| - 1][i] == es[i];
        r
  }

  /** One entry changes field `f` exactly when it is a scalar under `f`'s key. */
  lemma ApplyEntryField(before: FontInfo, e: Entry, c: Conv, f: Field)
    ensures Project(ApplyEntry(before, e, c), f)
         == if e.node.Scalar? && e.key == KeyOf(f) then ParseField(f, e.node.text, c) else Project(before, f)
    ensures f in ApplyEntry(before, e, c).flags
        <==> f in before.flags || (e.node.Scalar? && e.key == KeyOf(f))
  {
    KeyFieldInverse(f);
    if !e.node.Scalar? || IsNameKey(e.key) || KeyField(e.key).None? {
      ProjectIgnoresNameAndFlags(before, ApplyEntry(before, e, c), f);
    } else {
      var g := KeyField(e.key).value;
      ProjectIgnoresNameAndFlags(SetField(before, g, e.node.text, c), ApplyEntry(before, e, c), f);
      assert e.key == KeyOf(f) <==> g == f;
    }
  }

  /** A profile's field values do not depend on its name or flags. */
  lemma ProjectIgnoresNameAndFlags(a: FontInfo, b: FontInfo, f: Field)
    requires a.(name := b.name, flags := b.flags) == b
    ensures Project(a, f) == Project(b, f)
  {
  }

  /**
   * A field holds the conversion of the last scalar entry under its key,
   * or its earlier value when there is none; the flag is set exactly when
   * there is one.
   */
  lemma {:induction false} ReadFontInfoField(info: FontInfo, es: seq<Entry>, c: Conv, f: Field)
    ensures LastScalar(es, {KeyOf(f)}).None? ==> Project(ReadFontInfo(info, es, c), f) == Project(info, f)
    ensures LastScalar(es, {KeyOf(f)}).Some? ==>
      Project(ReadFontInfo(info, es, c), f) == ParseField(f, LastScalar(es, {KeyOf(f)}).value, c)
    ensures f in ReadFontInfo(info, es, c).flags
        <==> f in info.flags || LastScalar(es, {KeyOf(f)}).Some?
    decreases |es|
  {
    if es != [] {
      var prefix := es[..|es| - 1];
      ReadFontInfoField(info, prefix, c, f);
      ApplyEntryField(ReadFontInfo(info, prefix, c), es[|es| - 1], c, f);
    }
  }

  /**
   * The name is the conversion of the last `replace` or `name` entry, or
   * the earlier name when there is none.
   */
  lemma {:induction false} ReadFontInfoName(info: FontInfo, es: seq<Entry>, c: Conv)
    ensures ReadFontInfo(info, es, c).name
         == match LastScalar(es, {"replace", "name"})
            case Some(t) => c.utf16(t).GetOr("")
            case None => info.name
    decreases |es|
  {
    if es != [] {
      ReadFontInfoName(info, es[..|es| - 1], c);
    }
  }

  /**
   * `GetFontInfo` as a whole: each field is flagged iff some scalar entry
   * sits under its key, and then holds the conversion of the last one; the
   * name comes from the last `replace` or `name` entry, empty when there
   * is none or its conversion fails.
   */
  lemma GetFontInfoReads(es: seq<Entry>, c: Conv, f: Field)
    ensures f in GetFontInfo(es, c).flags <==> exists i :: 0 <= i < |es| && es[i].node.Scalar? && es[i].key == KeyOf(f)
    ensures LastScalar(es, {KeyOf(f)}).Some? ==>
      Project(GetFontInfo(es, c), f) == ParseField(f, LastScalar(es, {KeyOf(f)}).value, c)
    ensures GetFontInfo(es, c).name
         == match LastScalar(es, {"replace", "name"})
            case Some(t) => c.utf16(t).GetOr("")
            case None => ""
  {
    ReadFontInfoField(EmptyFontInfo, es, c, f);
    ReadFontInfoName(EmptyFontInfo, es, c);
  }

  /** A field absent from the mapping keeps its flag unset in `GetFontInfo`. */
  lemma UnmentionedFieldUnset(es: seq<Entry>, c: Conv, f: Field)
    requires forall i :: 0 <= i < |es| && es[i].node.Scalar? ==> es[i].key != KeyOf(f)
    ensures f !in GetFontInfo(es, c).flags
  {
    ReadFontInfoField(EmptyFontInfo, es, c, f);
  }

  /** The entry of a `fonts` section registers a profile under key `k`. */
  predicate Registers(e: Entry, k: string, c: Conv) {
    e.node.Mapping? && c.utf16(e.key) == Some(k)
  }

  /**
   * The `fonts` section: every mapping entry whose key converts is
   * emplaced into the store, so the first profile for a key wins.
   */
  function AddFonts(m: map<string, FontInfo>, es: seq<Entry>, c: Conv): (r: map<string, FontInfo>)
    // `emplace`: nothing stored earlier is replaced
    ensures forall k :: k in m ==> k in r && r[k] == m[k]
    decreases |es|
  {
    if es == [] then m
    else
      var e := es[0];
      var m' := if e.node.Mapping? && c.utf16(e.key).Some?
                then Emplace(m, c.utf16(e.key).value, GetFontInfo(e.node.entries, c))
                else m;
      AddFonts(m', es[1..], c)
  }

  /**
   * First entry wins: the store keeps what it had, and otherwise holds for
   * `k` the profile of the first entry registering `k`, if any.
   */
  lemma {:induction false} AddFontsFirstWins(m: map<string, FontInfo>, es: seq<Entry>, c: Conv, k: string)
    ensures k in m ==> k in AddFonts(m, es, c) && AddFonts(m, es, c)[k] == m[k]
    ensures k in AddFonts(m, es, c) <==> k in m || exists i :: 0 <= i < |es| && Registers(es[i], k, c)
    ensures forall i :: 0 <= i < |es| && k !in m && Registers(es[i], k, c)
                   && (forall j :: 0 <= j < i ==> !Registers(es[j], k, c))
                   ==> k in AddFonts(m, es, c) && AddFonts(m, es, c)[k] == GetFontInfo(es[i].node.entries, c)
    decreases |es|
  {
    if es != [] {
      var e := es[0];
      var m' := if e.node.Mapping? && c.utf16(e.key).Some?
                then Emplace(m, c.utf16(e.key).value, GetFontInfo(e.node.entries, c))
                else m;
      AddFontsFirstWins(m', es[1..], c, k);
      assert forall i :: 1 <= i < |es| ==> es[1..][i - 1] == es[i];
      if exists i :: 0 <= i < |es| && Registers(es[i], k, c) {
        var i :| 0 <= i < |es| && Registers(es[i], k, c);
        if i > 0 {
          assert Registers(es[1..][i - 1], k, c);
        }
      }
      forall i | 0 <= i < |es| && k !in m && Registers(es[i], k, c)
                 && (forall j :: 0 <= j < i ==> !Registers(es[j], k, c))
        ensures k in AddFonts(m, es, c) && AddFonts(m, es, c)[k] == GetFontInfo(es[i].node.entries, c)
      {
        if i > 0 {
          assert !Registers(es[0], k, c);
          assert k !in m';
          assert Registers(es[1..][i - 1], k, c);
          assert forall j :: 0 <= j < i - 1 ==> !Registers(es[1..][j], k, c);
        }
      }
    }
  }
}
