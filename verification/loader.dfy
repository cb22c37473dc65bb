/**
 * The tree-dispatch part of `LoadSettings`: the root mapping's entries,
 * read in order into the tables the hooks consult.
 */
module Loader {
  import opened Wrappers
  import opened WideText
  import opened LogFonts
  import opened Override
  import opened ConfigTree
  import opened FontConfig
  import opened Gdiplus
  import opened GdiplusConfig

  /** How the stock-font hook answers. */
  datatype GsoFontMode = Disabled | UseNcmFont | UseUserFont

  /** Everything the configuration sets. */
  datatype Settings = Settings(
    fonts: map<string, FontInfo>,
    gdip: GdipTables,
    sansSerif: string,
    serif: string,
    monospace: string,
    gsoMode: GsoFontMode,
    userGsoFont: LogFont,
    debug: bool)

  /** The state before the document is read: empty tables, everything off. */
  const InitialSettings: Settings :=
    Settings(map[], GdipTables(map[], map[]), "", "", "", Disabled, ZeroLogFont, false)

  /** The one fatal configuration error. */
  datatype LoadError = RootNotMap

  /** A converted wide string, cleared when the conversion fails. */
  function WideOrEmpty(text: string, c: Conv): string {
    c.utf16(text).GetOr("")
  }

  /** The `gdiplus` section: each mapping entry is one family. */
  function AddGdiplus(t: GdipTables, es: seq<Entry>, c: Conv): (r: GdipTables)
    // `emplace` throughout: nothing stored earlier is replaced
    ensures forall k :: k in t.families ==> k in r.families && r.families[k] == t.families[k]
    ensures forall k :: k in t.fonts ==> k in r.fonts && r.fonts[k] == t.fonts[k]
    decreases |es|
  {
    if es == [] then t
    else
      var t' := if es[0].node.Mapping? then AddGdiplusFamily(t, es[0].key, es[0].node.entries, c) else t;
      AddGdiplus(t', es[1..], c)
  }

  /**
   * One entry of the root mapping. `fonts` and `gdiplus` count only as
   * mappings; `fixGSOFont` as a true scalar switches to the system message
   * font, as a mapping applies a profile to the user stock font; the
   * generic-family names and `debug` count only as scalars. Anything else
   * is ignored.
   */
  function DispatchEntry(s: Settings, e: Entry, c: Conv): (r: Settings)
    // each setting is changed only by an entry under its own key
    ensures r.fonts != s.fonts ==> e.key == "fonts" && e.node.Mapping?
    ensures r.gdip != s.gdip ==> e.key == "gdiplus" && e.node.Mapping?
    ensures r.gsoMode != s.gsoMode ==> e.key == "fixGSOFont" && e.node.Scalar? && r.gsoMode == UseNcmFont
    ensures r.userGsoFont != s.userGsoFont ==> e.key == "fixGSOFont" && e.node.Mapping?
    ensures r.sansSerif != s.sansSerif ==> e.key == "gdipGFFSansSerif" && e.node.Scalar?
    ensures r.serif != s.serif ==> e.key == "gdipGFFSerif" && e.node.Scalar?
    ensures r.monospace != s.monospace ==> e.key == "gdipGFFMonospace" && e.node.Scalar?
    ensures r.debug != s.debug ==> e.key == "debug" && e.node.Scalar?
  {
    if e.node.Mapping? && e.key == "fonts" then
      s.(fonts := AddFonts(s.fonts, e.node.entries, c))
    else if e.key == "fixGSOFont" then
      match e.node
      case Scalar(t) => if c.toBool(t) then s.(gsoMode := UseNcmFont) else s
      case Mapping(es) => s.(userGsoFont := OverrideLogFont(GetFontInfo(es, c), s.userGsoFont))
      case Sequence(_) => s
    else if e.node.Mapping? && e.key == "gdiplus" then
      s.(gdip := AddGdiplus(s.gdip, e.node.entries, c))
    else if e.node.Scalar? && e.key == "gdipGFFSansSerif" then
      s.(sansSerif := WideOrEmpty(e.node.text, c))
    else if e.node.Scalar? && e.key == "gdipGFFSerif" then
      s.(serif := WideOrEmpty(e.node.text, c))
    else if e.node.Scalar? && e.key == "gdipGFFMonospace" then
      s.(monospace := WideOrEmpty(e.node.text, c))
    else if e.node.Scalar? && e.key == "debug" then
      s.(debug := c.toBool(e.node.text))
    else s
  }

  /** The root mapping's entries, in document order. */
  function DispatchAll(s: Settings, es: seq<Entry>, c: Conv): Settings
    decreases |es|
  {
    if es == [] then s else DispatchAll(DispatchEntry(s, es[0], c), es[1..], c)
  }

  /**
   * The entries of every mapping entry under `key` of the root, joined in
   * document order; entries under `key` that are not mappings contribute
   * nothing.
   */
  function Sections(es: seq<Entry>, key: string): seq<Entry>
    decreases |es|
  {
    if es == [] then []
    else (if es[0].node.Mapping? && es[0].key == key then es[0].node.entries else []) + Sections(es[1..], key)
  }

  /** The converted text of the last scalar entry under `key`, or `dflt` when there is none. */
  function LastWide(es: seq<Entry>, key: string, c: Conv, dflt: string): string {
    match LastScalar(es, {key})
    case Some(t) => WideOrEmpty(t, c)
    case None => dflt
  }

  /** The last scalar entry under `key` as a `bool`, or `dflt` when there is none. */
  function LastBool(es: seq<Entry>, key: string, c: Conv, dflt: bool): bool {
    match LastScalar(es, {key})
    case Some(t) => c.toBool(t)
    case None => dflt
  }

  /** A `fixGSOFont` entry that switches to the system message font. */
  predicate SelectsNcm(e: Entry, c: Conv) {
    e.key == "fixGSOFont" && e.node.Scalar? && c.toBool(e.node.text)
  }

  /**
   * `LoadSettings`: fails exactly when the root is not a mapping.
   * Otherwise the profile store is filled from all `fonts` mappings in
   * order, the GDI+ tables from all `gdiplus` mappings in order, the
   * generic-family names and `debug` hold their last scalar setting, and
   * the system message font is selected iff some `fixGSOFont` scalar is
   * true; the user stock font is never selected.
   */
  function LoadSettings(root: Node, c: Conv): (r: Result<Settings, LoadError>)
    ensures r.Failure? <==> !root.Mapping?
    ensures r.Success? ==> r.value.gsoMode != UseUserFont
    ensures r.Success? ==>
      && r.value.fonts == AddFonts(map[], Sections(root.entries, "fonts"), c)
      && r.value.gdip == AddGdiplus(GdipTables(map[], map[]), Sections(root.entries, "gdiplus"), c)
    ensures r.Success? ==>
      && r.value.sansSerif == LastWide(root.entries, "gdipGFFSansSerif", c, "")
      && r.value.serif == LastWide(root.entries, "gdipGFFSerif", c, "")
      && r.value.monospace == LastWide(root.entries, "gdipGFFMonospace", c, "")
      && r.value.debug == LastBool(root.entries, "debug", c, false)
    ensures r.Success? ==>
      (r.value.gsoMode == UseNcmFont <==> exists i :: 0 <= i < |root.entries| && SelectsNcm(root.entries[i], c))
  {
    match root
    case Mapping(es) =>
      NeverUserFont(InitialSettings, es, c);
      DispatchTables(InitialSettings, es, c);
      DispatchLastScalars(InitialSettings, es, c);
      DispatchLastDebug(InitialSettings, es, c);
      GsoModeSelected(InitialSettings, es, c);
      Success(DispatchAll(InitialSettings, es, c))
    case _ => Failure(RootNotMap)
  }

  /** Reading two runs of `fonts` entries is reading their concatenation. */
  lemma {:induction false} AddFontsAppend(m: map<string, FontInfo>, a: seq<Entry>, b: seq<Entry>, c: Conv)
    ensures AddFonts(m, a + b, c) == AddFonts(AddFonts(m, a, c), b, c)
    decreases |a|
  {
    if a != [] {
      assert (a + b)[0] == a[0] && (a + b)[1..] == a[1..] + b;
      var m' := if a[0].node.Mapping? && c.utf16(a[0].key).Some?
                then Emplace(m, c.utf16(a[0].key).value, GetFontInfo(a[0].node.entries, c))
                else m;
      AddFontsAppend(m', a[1..], b, c);
    } else {
      assert a + b == b;
    }
  }

  /** Reading two runs of `gdiplus` families is reading their concatenation. */
  lemma {:induction false} AddGdiplusAppend(t: GdipTables, a: seq<Entry>, b: seq<Entry>, c: Conv)
    ensures AddGdiplus(t, a + b, c) == AddGdiplus(AddGdiplus(t, a, c), b, c)
    decreases |a|
  {
    if a != [] {
      assert (a + b)[0] == a[0] && (a + b)[1..] == a[1..] + b;
      var t' := if a[0].node.Mapping? then AddGdiplusFamily(t, a[0].key, a[0].node.entries, c) else t;
      AddGdiplusAppend(t', a[1..], b, c);
    } else {
      assert a + b == b;
    }
  }

  /**
   * The tables: the store is `AddFonts` of all `fonts` sections and the
   * GDI+ tables are `AddGdiplus` of all `gdiplus` sections, in document
   * order, as if they were one section.
   */
  lemma {:induction false} DispatchTables(s: Settings, es: seq<Entry>, c: Conv)
    ensures DispatchAll(s, es, c).fonts == AddFonts(s.fonts, Sections(es, "fonts"), c)
    ensures DispatchAll(s, es, c).gdip == AddGdiplus(s.gdip, Sections(es, "gdiplus"), c)
    decreases |es|
  {
    if es != [] {
      var e := es[0];
      var s' := DispatchEntry(s, e, c);
      DispatchTables(s', es[1..], c);
      var fs := if e.node.Mapping? && e.key == "fonts" then e.node.entries else [];
      var gs := if e.node.Mapping? && e.key == "gdiplus" then e.node.entries else [];
      assert s'.fonts == AddFonts(s.fonts, fs, c);
      assert s'.gdip == AddGdiplus(s.gdip, gs, c);
      AddFontsAppend(s.fonts, fs, Sections(es[1..], "fonts"), c);
      AddGdiplusAppend(s.gdip, gs, Sections(es[1..], "gdiplus"), c);
    }
  }

  /** Reading the root entries in two runs is reading them in one. */
  lemma {:induction false} DispatchAllAppend(s: Settings, a: seq<Entry>, b: seq<Entry>, c: Conv)
    ensures DispatchAll(s, a + b, c) == DispatchAll(DispatchAll(s, a, c), b, c)
    decreases |a|
  {
    if a != [] {
      assert (a + b)[0] == a[0] && (a + b)[1..] == a[1..] + b;
      DispatchAllAppend(DispatchEntry(s, a[0], c), a[1..], b, c);
    } else {
      assert a + b == b;
    }
  }

  /**
   * The generic-family names are plain assignments, not emplaces: each
   * holds its last scalar setting.
   */
  lemma {:induction false} DispatchLastScalars(s: Settings, es: seq<Entry>, c: Conv)
    ensures DispatchAll(s, es, c).sansSerif == LastWide(es, "gdipGFFSansSerif", c, s.sansSerif)
    ensures DispatchAll(s, es, c).serif == LastWide(es, "gdipGFFSerif", c, s.serif)
    ensures DispatchAll(s, es, c).monospace == LastWide(es, "gdipGFFMonospace", c, s.monospace)
    decreases |es|
  {
    if es != [] {
      var n := |es| - 1;
      DispatchLastStep(s, es, c);
      DispatchLastScalars(s, es[..n], c);
    }
  }

  /** `debug` too is a plain assignment: it holds its last scalar setting. */
  lemma {:induction false} DispatchLastDebug(s: Settings, es: seq<Entry>, c: Conv)
    ensures DispatchAll(s, es, c).debug == LastBool(es, "debug", c, s.debug)
    decreases |es|
  {
    if es != [] {
      var n := |es| - 1;
      DispatchLastStep(s, es, c);
      DispatchLastDebug(s, es[..n], c);
    }
  }

  /** Reading the root entries is reading all but the last, then the last. */
  lemma DispatchLastStep(s: Settings, es: seq<Entry>, c: Conv)
    requires es != []
    ensures DispatchAll(s, es, c) == DispatchEntry(DispatchAll(s, es[..|es| - 1], c), es[|es| - 1], c)
  {
    var n := |es| - 1;
    assert es[..n] + [es[n]] == es;
    DispatchAllAppend(s, es[..n], [es[n]], c);
  }

  /** The system message font is selected iff it was already, or some `fixGSOFont` scalar is true. */
  lemma {:induction false} GsoModeSelected(s: Settings, es: seq<Entry>, c: Conv)
    requires s.gsoMode != UseUserFont
    ensures DispatchAll(s, es, c).gsoMode == UseNcmFont
        <==> s.gsoMode == UseNcmFont || exists i :: 0 <= i < |es| && SelectsNcm(es[i], c)
    decreases |es|
  {
    if es != [] {
      var s' := DispatchEntry(s, es[0], c);
      GsoModeSelected(s', es[1..], c);
      assert forall i :: 1 <= i < |es| ==> es[1..][i - 1] == es[i];
      if exists i :: 0 <= i < |es| && SelectsNcm(es[i], c) {
        var i :| 0 <= i < |es| && SelectsNcm(es[i], c);
        if i > 0 {
          assert SelectsNcm(es[1..][i - 1], c);
        }
      }
    }
  }

  /** No entry selects the user stock font. */
  lemma {:induction false} NeverUserFont(s: Settings, es: seq<Entry>, c: Conv)
    requires s.gsoMode != UseUserFont
    ensures DispatchAll(s, es, c).gsoMode != UseUserFont
    decreases |es|
  {
    if es != [] {
      NeverUserFont(DispatchEntry(s, es[0], c), es[1..], c);
    }
  }

  /** Once on, the system-font mode stays on: a later false does not turn it off. */
  lemma {:induction false} NcmModeSticks(s: Settings, es: seq<Entry>, c: Conv)
    requires s.gsoMode == UseNcmFont
    ensures DispatchAll(s, es, c).gsoMode == UseNcmFont
    decreases |es|
  {
    if es != [] {
      NcmModeSticks(DispatchEntry(s, es[0], c), es[1..], c);
    }
  }

  /** The `debug` switch changes no table the hooks consult. */
  lemma {:induction false} DebugDoesNotDecide(s: Settings, es: seq<Entry>, c: Conv, d: bool)
    ensures DispatchAll(s.(debug := d), es, c).(debug := false) == DispatchAll(s, es, c).(debug := false)
    decreases |es|
  {
    if es != [] {
      assert DispatchEntry(s.(debug := d), es[0], c).(debug := false) == DispatchEntry(s, es[0], c).(debug := false);
      var s1 := DispatchEntry(s, es[0], c);
      var s2 := DispatchEntry(s.(debug := d), es[0], c);
      assert s2 == s1.(debug := s2.debug);
      DebugDoesNotDecide(s1, es[1..], c, s2.debug);
    }
  }

  /** Conversions that read numbers the obvious way for the examples below. */
  function SampleConv(): Conv {
    Conv(
      (t: string) => if t == "12" then 12 else 0,
      (t: string) => 0.0,
      (t: string) => if t == "12" then 12.0 else 0.0,
      (t: string) => t == "true",
      (t: string) => 0,
      (t: string) => if t == "7" then Some(7) else None,
      (t: string) => Some(t))
  }

  /**
   * A family that sets both size and style gets only its size override:
   * each entry builds a fresh profile and the first one stored stays.
   */
  lemma OnlyFirstAttributeStored()
    ensures var root := Mapping([Entry("gdiplus", Mapping([
                Entry("Arial", Mapping([Entry("size", Scalar("12")), Entry("style", Scalar("bold"))]))]))]);
      var r := LoadSettings(root, SampleConv());
      && r.Success?
      && r.value.gdip.fonts == map["Arial" := GPFontInfo({Size}, 12.0, 0, 0)]
  {
    var c := SampleConv();
    var family := Entry("Arial", Mapping([Entry("size", Scalar("12")), Entry("style", Scalar("bold"))]));
    var root := [Entry("gdiplus", Mapping([family]))];
    assert Sections(root, "gdiplus") == [family];
    SizeThenStyleFamily();
    assert AddGdiplus(GdipTables(map[], map[]), [family], c).fonts == map["Arial" := GPFontInfo({Size}, 12.0, 0, 0)];
  }

  /** The family of the example above, read on its own: the style entry is dropped. */
  lemma SizeThenStyleFamily()
    ensures AddGdiplusFamily(GdipTables(map[], map[]), "Arial",
              [Entry("size", Scalar("12")), Entry("style", Scalar("bold"))], SampleConv()).fonts
         == map["Arial" := GPFontInfo({Size}, 12.0, 0, 0)]
  {
    var c := SampleConv();
    var es := [Entry("size", Scalar("12")), Entry("style", Scalar("bold"))];
    var t0 := GdipTables(map[], map[]);
    var t1 := t0.(fonts := map["Arial" := GPFontInfo({Size}, 12.0, 0, 0)]);
    assert GpEntryInfo("size", "12", c) == GPFontInfo({Size}, 12.0, 0, 0);
    assert c.utf16("Arial") == Some("Arial");
    assert es[0].node.Scalar? && !IsNameKey(es[0].key);
    assert Emplace(t0.fonts, "Arial", GPFontInfo({Size}, 12.0, 0, 0)) == t1.fonts;
    assert AddGdiplusFamily(t0, "Arial", es, c) == AddGdiplusFamily(t1, "Arial", es[1..], c);
    var rest := es[1..];
    assert rest == [Entry("style", Scalar("bold"))] && rest[1..] == [];
    var bold := GpEntryInfo("style", "bold", c);
    assert Emplace(t1.fonts, "Arial", bold) == t1.fonts;
    assert AddGdiplusFamily(t1, "Arial", rest, c) == AddGdiplusFamily(t1, "Arial", rest[1..], c);
  }

  /** A style that is neither a token nor a number leaves the flag unset and stores nothing. */
  lemma UnknownStyleIgnored()
    ensures var root := Mapping([Entry("gdiplus", Mapping([
                Entry("Arial", Mapping([Entry("style", Scalar("fancy"))]))]))]);
      var r := LoadSettings(root, SampleConv());
      && r.Success?
      && r.value.gdip.fonts == map[]
  {
    var c := SampleConv();
    assert ParseStyle("fancy", c.toU32).None?;
  }
}
