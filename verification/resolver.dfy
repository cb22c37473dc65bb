/**
 * The profile resolver of the `CreateFontIndirectExW` hook: which profile,
 * if any, applies to a request, and the descriptor handed on to the real
 * font-creation function.
 */
module Resolver {
  import opened Wrappers
  import opened WideText
  import opened LogFonts
  import opened Override

  /** The catch-all key: its profile applies to every request. */
  const AllFontName: string := "FontAll"

  /** The fallback key: its profile applies to names that are not installed. */
  const FallbackFontName: string := "FontFallback"

  /**
   * The outcome of resolving a name: the chosen profile and whether the
   * installed-font query was made to reach it.
   */
  datatype Resolution = Resolution(profile: Option<FontInfo>, askedInstalled: bool)

  /**
   * Precedence: the catch-all profile; else the profile stored under the
   * exact requested name; else the fallback profile when the name is not
   * installed. `installed` stands for the system font enumeration and is
   * consulted only on the last branch, after the fallback key is known to
   * exist.
   */
  function Resolve(store: map<string, FontInfo>, name: string, installed: string -> bool): (r: Resolution)
    ensures r.profile.Some? ==> r.profile.value in store.Values
    ensures AllFontName in store ==> r == Resolution(Some(store[AllFontName]), false)
    ensures AllFontName !in store && name in store ==> r == Resolution(Some(store[name]), false)
    ensures AllFontName !in store && name !in store ==>
      && (r.askedInstalled <==> FallbackFontName in store)
      && (r.profile.Some? <==> FallbackFontName in store && !installed(name))
      && (r.profile.Some? ==> r.profile.value == store[FallbackFontName])
  {
    if AllFontName in store then
      Resolution(Some(store[AllFontName]), false)
    else if name in store then
      Resolution(Some(store[name]), false)
    else if FallbackFontName in store then
      if !installed(name) then Resolution(Some(store[FallbackFontName]), true)
      else Resolution(None, true)
    else
      Resolution(None, false)
  }

  /**
   * The descriptor passed on to the real `CreateFontIndirectExW`: the
   * request itself when no profile applies, else a copy of it with the
   * profile applied. The name looked up, and asked about, is the C string
   * in the face buffer.
   */
  function CreateFontIndirectEx(store: map<string, FontInfo>, request: LogFont, installed: string -> bool): (r: LogFont)
    ensures Resolve(store, CStr(request.face), installed).profile.None? ==> r == request
    ensures Resolve(store, CStr(request.face), installed).profile.Some? ==>
      r == OverrideLogFont(Resolve(store, CStr(request.face), installed).profile.value, request)
    ensures r.escapement == request.escapement && r.orientation == request.orientation
  {
    match Resolve(store, CStr(request.face), installed).profile
    case None => request
    case Some(p) => OverrideLogFont(p, request)
  }

  /**
   * When the resolver did not ask whether the name is installed, its
   * answer does not depend on that query at all.
   */
  lemma UnaskedQueryIsIrrelevant(store: map<string, FontInfo>, name: string, installed: string -> bool, other: string -> bool)
    requires !Resolve(store, name, installed).askedInstalled
    ensures Resolve(store, name, other) == Resolve(store, name, installed)
  {
  }

  /** A catch-all profile rewrites every request, whatever its name and installed state. */
  lemma CatchAllWins(store: map<string, FontInfo>, request: LogFont, installed: string -> bool)
    requires AllFontName in store
    ensures CreateFontIndirectEx(store, request, installed) == OverrideLogFont(store[AllFontName], request)
  {
  }

  /**
   * With neither a catch-all nor an exact entry, the fallback profile is
   * chosen if and only if it exists and the name is not installed.
   */
  lemma FallbackIffNotInstalled(store: map<string, FontInfo>, name: string, installed: string -> bool)
    requires AllFontName !in store && name !in store
    ensures Resolve(store, name, installed).profile.Some?
        <==> FallbackFontName in store && !installed(name)
    ensures FallbackFontName in store && !installed(name) ==>
      Resolve(store, name, installed).profile == Some(store[FallbackFontName])
  {
  }

  /** An installed name with no entry of its own passes through unchanged. */
  lemma InstalledMissPassesThrough(store: map<string, FontInfo>, request: LogFont, installed: string -> bool)
    requires AllFontName !in store && CStr(request.face) !in store
    requires installed(CStr(request.face))
    ensures CreateFontIndirectEx(store, request, installed) == request
  {
  }

  /**
   * Only the C string of the face buffer is looked up: whatever follows
   * its terminator plays no part.
   */
  lemma LookupStopsAtNul(store: map<string, FontInfo>, request: LogFont, installed: string -> bool, tail: string)
    requires '\0' !in request.face
    ensures var padded := request.(face := request.face + "\0" + tail);
      CreateFontIndirectEx(store, padded, installed)
        == match Resolve(store, request.face, installed).profile
           case None => padded
           case Some(p) => OverrideLogFont(p, padded)
  {
    CStrOfClean(request.face);
    CStrStopsAtNul(request.face, tail);
  }
}
