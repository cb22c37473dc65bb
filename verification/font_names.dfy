/**
 * The font-name records of the installed-font listing: their ordering and
 * the grouping of names by face.
 */
module FontNames {

  /** The names the enumeration reports for one font. */
  datatype FontNameInfo = FontNameInfo(faceName: string, fullName: string, styleName: string)

  /** `std::wstring` less-than: lexicographic by character, a proper prefix first. */
  predicate StrLess(a: string, b: string): (r: bool)
    ensures r ==> a != b
    // a proper prefix comes first
    ensures |a| < |b| && a == b[..|a|] ==> r
    decreases |a|
  {
    if |a| == 0 then |b| > 0
    else if |b| == 0 then false
    else if a[0] != b[0] then a[0] < b[0]
    else StrLess(a[1..], b[1..])
  }

  /** `FontNameInfo::operator<`: by face, then full name, then style. */
  predicate NameLess(x: FontNameInfo, y: FontNameInfo): (r: bool)
    ensures r ==> x != y
    // a different face decides alone, whatever the other names
    ensures StrLess(x.faceName, y.faceName) ==> r
    ensures StrLess(y.faceName, x.faceName) ==> !r
  {
    StrLessTrichotomy(x.faceName, y.faceName);
    if x.faceName != y.faceName then StrLess(x.faceName, y.faceName)
    else if x.fullName != y.fullName then StrLess(x.fullName, y.fullName)
    else StrLess(x.styleName, y.styleName)
  }

  lemma {:induction false} StrLessIrreflexive(a: string)
    ensures !StrLess(a, a)
    decreases |a|
  {
    if |a| > 0 {
      StrLessIrreflexive(a[1..]);
    }
  }

  lemma {:induction false} StrLessTransitive(a: string, b: string, d: string)
    requires StrLess(a, b) && StrLess(b, d)
    ensures StrLess(a, d)
    decreases |a|
  {
    if |a| > 0 && a[0] == b[0] && b[0] == d[0] {
      StrLessTransitive(a[1..], b[1..], d[1..]);
    }
  }

  /** Of two different strings, exactly one is less than the other. */
  lemma {:induction false} StrLessTrichotomy(a: string, b: string)
    ensures a == b || StrLess(a, b) || StrLess(b, a)
    ensures !(StrLess(a, b) && StrLess(b, a))
    decreases |a|
  {
    if |a| > 0 && |b| > 0 && a[0] == b[0] {
      StrLessTrichotomy(a[1..], b[1..]);
      if a[1..] == b[1..] {
        assert a == [a[0]] + a[1..] && b == [b[0]] + b[1..];
      }
    }
  }

  /**
   * `operator<` is a strict total order, so the set of records it keeps
   * holds each distinct record once.
   */
  lemma NameLessStrictTotal(x: FontNameInfo, y: FontNameInfo, z: FontNameInfo)
    ensures !NameLess(x, x)
    ensures NameLess(x, y) && NameLess(y, z) ==> NameLess(x, z)
    ensures x == y || NameLess(x, y) || NameLess(y, x)
    ensures !(NameLess(x, y) && NameLess(y, x))
  {
    StrLessIrreflexive(x.styleName);
    StrLessTrichotomy(x.faceName, y.faceName);
    StrLessTrichotomy(x.fullName, y.fullName);
    StrLessTrichotomy(x.styleName, y.styleName);
    if NameLess(x, y) && NameLess(y, z) {
      if x.faceName != y.faceName && StrLess(x.faceName, y.faceName) && y.faceName != z.faceName {
        StrLessTransitive(x.faceName, y.faceName, z.faceName);
        StrLessIrreflexive(x.faceName);
      } else if x.faceName == y.faceName && y.faceName == z.faceName {
        if x.fullName != y.fullName && y.fullName != z.fullName {
          StrLessTransitive(x.fullName, y.fullName, z.fullName);
          StrLessIrreflexive(x.fullName);
        } else if x.fullName == y.fullName && y.fullName == z.fullName {
          StrLessTransitive(x.styleName, y.styleName, z.styleName);
        }
      }
    }
  }

  /** The names one record contributes to its face's group. */
  function NamesOf(info: FontNameInfo): set<string> {
    if info.fullName != "" && info.fullName != info.faceName
    then {info.faceName, info.fullName}
    else {info.faceName}
  }

  /** The grouping loop: for each record in turn, its names join its face's group. */
  function GroupNames(infos: seq<FontNameInfo>): (r: map<string, set<string>>)
    ensures r.Keys == set i | 0 <= i < |infos| :: infos[i].faceName
    ensures forall face :: face in r ==> face in r[face]
    decreases |infos|
  {
    if infos == [] then map[]
    else
      var m := GroupNames(infos[..|infos| - 1]);
      var info := infos[|infos| - 1];
      var group := if info.faceName in m then m[info.faceName] else {};
      m[info.faceName := group + NamesOf(info)]
  }

  /** The full names of the records of face `face` that are non-empty and differ from it. */
  function AltNames(infos: seq<FontNameInfo>, face: string): set<string> {
    set i | 0 <= i < |infos| && infos[i].faceName == face
             && infos[i].fullName != "" && infos[i].fullName != face :: infos[i].fullName
  }

  /**
   * There is one group per face, and each holds the face name itself plus
   * the full names that are non-empty and differ from it.
   */
  lemma {:induction false} GroupNamesContents(infos: seq<FontNameInfo>, face: string)
    ensures face in GroupNames(infos) <==> exists i :: 0 <= i < |infos| && infos[i].faceName == face
    ensures face in GroupNames(infos) ==> GroupNames(infos)[face] == {face} + AltNames(infos, face)
    decreases |infos|
  {
    if infos != [] {
      var n := |infos| - 1;
      var prefix := infos[..n];
      var last := infos[n];
      assert face in GroupNames(infos) <==> face in set i | 0 <= i < |infos| :: infos[i].faceName;
      if face in GroupNames(infos) {
        GroupNamesContents(prefix, face);
        AltNamesSnoc(infos, face);
        var m := GroupNames(prefix);
        assert GroupNames(infos)
            == m[last.faceName := (if last.faceName in m then m[last.faceName] else {}) + NamesOf(last)];
      }
    }
  }

  /** The full names of a face grow by the last record's, when it has a fitting one. */
  lemma AltNamesSnoc(infos: seq<FontNameInfo>, face: string)
    requires infos != []
    ensures var last := infos[|infos| - 1];
      AltNames(infos, face)
        == AltNames(infos[..|infos| - 1], face)
         + (if last.faceName == face && last.fullName != "" && last.fullName != face then {last.fullName} else {})
  {
    var n := |infos| - 1;
    assert forall i :: 0 <= i < n ==> infos[..n][i] == infos[i];
  }
}
