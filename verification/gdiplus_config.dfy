/**
 * `AddGdiplusFontInfo`: one family mapping of the `gdiplus` section,
 * read into the remap table or the attribute table.
 */
module GdiplusConfig {
  import opened Wrappers
  import opened WideText
  import opened ConfigTree
  import opened FontConfig
  import opened Gdiplus

  /** The two GDI+ tables: family remaps and per-family attribute profiles. */
  datatype GdipTables = GdipTables(families: map<string, string>, fonts: map<string, GPFontInfo>)

  /**
   * The fresh profile built from one scalar entry: it carries at most the
   * one flag its key names, and none when a style or unit setting is
   * neither a token nor a number.
   */
  function GpEntryInfo(key: string, text: string, c: Conv): (r: GPFontInfo)
    ensures |r.flags| <= 1
    ensures key == "size" ==> r.flags == {Size} && r.size == c.toFloat(text)
    ensures key == "style" ==> r.flags <= {Style}
    ensures key == "style" ==> (r.flags == {Style} <==> ParseStyle(text, c.toU32).Some?)
    ensures key == "style" && ParseStyle(text, c.toU32).Some? ==> r.style == ParseStyle(text, c.toU32).value
    ensures key == "unit" ==> r.flags <= {Unit}
    ensures key == "unit" ==> (r.flags == {Unit} <==> ParseUnit(text, c.toU32).Some?)
    ensures key == "unit" && ParseUnit(text, c.toU32).Some? ==> r.unit == ParseUnit(text, c.toU32).value
    ensures key != "size" && key != "style" && key != "unit" ==> r.flags == {}
  {
    if key == "size" then
      EmptyGpFontInfo.(size := c.toFloat(text), flags := {Size})
    else if key == "style" then
      match ParseStyle(text, c.toU32)
      case Some(s) => EmptyGpFontInfo.(style := s, flags := {Style})
      case None => EmptyGpFontInfo
    else if key == "unit" then
      match ParseUnit(text, c.toU32)
      case Some(u) => EmptyGpFontInfo.(unit := u, flags := {Unit})
      case None => EmptyGpFontInfo
    else EmptyGpFontInfo
  }

  /**
   * The entries of the mapping for family `family`, in order. A remap
   * entry emplaces the remap when both names convert and ends the family
   * either way; any other scalar entry emplaces its fresh profile when it
   * carries a flag.
   */
  function AddGdiplusFamily(t: GdipTables, family: string, es: seq<Entry>, c: Conv): (r: GdipTables)
    // nothing is stored for a family name that does not convert
    ensures c.utf16(family).None? ==> r == t
    // only this family's key is ever added, and no stored entry is replaced
    ensures forall k :: k in r.families ==> k in t.families || c.utf16(family) == Some(k)
    ensures forall k :: k in r.fonts ==> k in t.fonts || c.utf16(family) == Some(k)
    ensures forall k :: k in t.families ==> k in r.families && r.families[k] == t.families[k]
    ensures forall k :: k in t.fonts ==> k in r.fonts && r.fonts[k] == t.fonts[k]
    decreases |es|
  {
    if es == [] then t
    else
      var e := es[0];
      if !e.node.Scalar? then AddGdiplusFamily(t, family, es[1..], c)
      else if IsNameKey(e.key) then
        if c.utf16(family).Some? && c.utf16(e.node.text).Some?
        then t.(families := Emplace(t.families, c.utf16(family).value, c.utf16(e.node.text).value))
        else t
      else
        var info := GpEntryInfo(e.key, e.node.text, c);
        var t' := if info.flags != {} && c.utf16(family).Some?
                  then t.(fonts := Emplace(t.fonts, c.utf16(family).value, info))
                  else t;
        AddGdiplusFamily(t', family, es[1..], c)
  }

  /** Every stored attribute profile carries exactly one flag. */
  ghost predicate OneFlagEach(fonts: map<string, GPFontInfo>) {
    forall k :: k in fonts ==> |fonts[k].flags| == 1
  }

  /**
   * Reading a family keeps every stored profile down to one flag: however
   * many of size, style and unit a family sets, only one is ever stored.
   */
  lemma {:induction false} OneFlagPerStoredProfile(t: GdipTables, family: string, es: seq<Entry>, c: Conv)
    requires OneFlagEach(t.fonts)
    ensures OneFlagEach(AddGdiplusFamily(t, family, es, c).fonts)
    decreases |es|
  {
    if es != [] {
      var e := es[0];
      if !e.node.Scalar? {
        OneFlagPerStoredProfile(t, family, es[1..], c);
      } else if !IsNameKey(e.key) {
        var info := GpEntryInfo(e.key, e.node.text, c);
        var t' := if info.flags != {} && c.utf16(family).Some?
                  then t.(fonts := Emplace(t.fonts, c.utf16(family).value, info))
                  else t;
        assert OneFlagEach(t'.fonts);
        OneFlagPerStoredProfile(t', family, es[1..], c);
      }
    }
  }

  /** An entry that asks for a remap. */
  predicate IsRemapEntry(e: Entry) {
    e.node.Scalar? && IsNameKey(e.key)
  }

  /** Entries after the first remap entry of a family are never read. */
  lemma {:induction false} RemapEndsFamily(t: GdipTables, family: string, es: seq<Entry>, c: Conv, i: nat)
    requires i < |es| && IsRemapEntry(es[i])
    requires forall j :: 0 <= j < i ==> !IsRemapEntry(es[j])
    ensures AddGdiplusFamily(t, family, es, c) == AddGdiplusFamily(t, family, es[..i + 1], c)
    decreases i
  {
    if i > 0 {
      var e := es[0];
      assert es[..i + 1][0] == e;
      assert es[..i + 1][1..] == es[1..][..i];
      var t' := if e.node.Scalar? && GpEntryInfo(e.key, e.node.text, c).flags != {} && c.utf16(family).Some?
                then t.(fonts := Emplace(t.fonts, c.utf16(family).value, GpEntryInfo(e.key, e.node.text, c)))
                else t;
      RemapEndsFamily(t', family, es[1..], c, i - 1);
    }
  }

  /** An entry that would store an attribute profile. */
  predicate StoresAttribute(e: Entry, c: Conv) {
    e.node.Scalar? && !IsNameKey(e.key) && GpEntryInfo(e.key, e.node.text, c).flags != {}
  }

  /**
   * The attribute profile stored for a new family is the one of its first
   * attribute entry, provided no remap entry comes before it.
   */
  lemma {:induction false} FirstAttributeWins(t: GdipTables, family: string, es: seq<Entry>, c: Conv, i: nat)
    requires c.utf16(family).Some? && c.utf16(family).value !in t.fonts
    requires i < |es| && StoresAttribute(es[i], c)
    requires forall j :: 0 <= j < i ==> !IsRemapEntry(es[j]) && !StoresAttribute(es[j], c)
    ensures var k := c.utf16(family).value;
      var fonts := AddGdiplusFamily(t, family, es, c).fonts;
      k in fonts && fonts[k] == GpEntryInfo(es[i].key, es[i].node.text, c)
    decreases |es|
  {
    var k := c.utf16(family).value;
    var e := es[0];
    if i == 0 {
      var t' := t.(fonts := Emplace(t.fonts, k, GpEntryInfo(e.key, e.node.text, c)));
      StoredProfileKept(t', family, es[1..], c, k);
    } else {
      assert forall j :: 0 <= j < i - 1 ==> es[1..][j] == es[j + 1];
      FirstAttributeWins(t, family, es[1..], c, i - 1);
    }
  }

  /** Once a family's attribute profile is stored, later entries keep it. */
  lemma {:induction false} StoredProfileKept(t: GdipTables, family: string, es: seq<Entry>, c: Conv, k: string)
    requires k in t.fonts
    ensures k in AddGdiplusFamily(t, family, es, c).fonts
    ensures AddGdiplusFamily(t, family, es, c).fonts[k] == t.fonts[k]
    decreases |es|
  {
    if es != [] {
      var e := es[0];
      if !e.node.Scalar? {
        StoredProfileKept(t, family, es[1..], c, k);
      } else if !IsNameKey(e.key) {
        var info := GpEntryInfo(e.key, e.node.text, c);
        var t' := if info.flags != {} && c.utf16(family).Some?
                  then t.(fonts := Emplace(t.fonts, c.utf16(family).value, info))
                  else t;
        StoredProfileKept(t', family, es[1..], c, k);
      }
    }
  }

  /**
   * The remap half: the first remap entry of a family emplaces
   * family -> substitute when both names convert, and the remap table
   * changes in no other way.
   */
  lemma {:induction false} RemapRecorded(t: GdipTables, family: string, es: seq<Entry>, c: Conv, i: nat)
    requires i < |es| && IsRemapEntry(es[i])
    requires forall j :: 0 <= j < i ==> !IsRemapEntry(es[j])
    ensures AddGdiplusFamily(t, family, es, c).families
         == if c.utf16(family).Some? && c.utf16(es[i].node.text).Some?
            then Emplace(t.families, c.utf16(family).value, c.utf16(es[i].node.text).value)
            else t.families
    decreases i
  {
    if i > 0 {
      var e := es[0];
      assert es[1..][i - 1] == es[i];
      assert forall j :: 0 <= j < i - 1 ==> es[1..][j] == es[j + 1];
      var t' := if e.node.Scalar? && GpEntryInfo(e.key, e.node.text, c).flags != {} && c.utf16(family).Some?
                then t.(fonts := Emplace(t.fonts, c.utf16(family).value, GpEntryInfo(e.key, e.node.text, c)))
                else t;
      RemapRecorded(t', family, es[1..], c, i - 1);
    }
  }

  /** A family with no remap entry leaves the remap table as it was. */
  lemma {:induction false} NoRemapNoChange(t: GdipTables, family: string, es: seq<Entry>, c: Conv)
    requires forall j :: 0 <= j < |es| ==> !IsRemapEntry(es[j])
    ensures AddGdiplusFamily(t, family, es, c).families == t.families
    decreases |es|
  {
    if es != [] {
      var e := es[0];
      assert forall j :: 0 <= j < |es| - 1 ==> es[1..][j] == es[j + 1];
      var t' := if e.node.Scalar? && GpEntryInfo(e.key, e.node.text, c).flags != {} && c.utf16(family).Some?
                then t.(fonts := Emplace(t.fonts, c.utf16(family).value, GpEntryInfo(e.key, e.node.text, c)))
                else t;
      NoRemapNoChange(t', family, es[1..], c);
    }
  }

  /**
   * The other half of the attribute rule: a family none of whose entries
   * carries a flag leaves the attribute table as it was.
   */
  lemma {:induction false} NoAttributeNoFonts(t: GdipTables, family: string, es: seq<Entry>, c: Conv)
    requires forall j :: 0 <= j < |es| ==> !StoresAttribute(es[j], c)
    ensures AddGdiplusFamily(t, family, es, c).fonts == t.fonts
    decreases |es|
  {
    if es != [] && !IsRemapEntry(es[0]) {
      assert !StoresAttribute(es[0], c);
      assert forall j :: 0 <= j < |es| - 1 ==> es[1..][j] == es[j + 1];
      NoAttributeNoFonts(t, family, es[1..], c);
    }
  }
}
