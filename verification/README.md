# FontMod override engine, modelled in Dafny

FontMod is a Windows DLL. It intercepts GDI and GDI+ font-creation calls and
rewrites them according to a YAML configuration. This project models the
decision logic of `FontMod.cpp` as pure functions over immutable records and
proves properties of it:

- **Descriptor mutator** (`Override`). `OverrideLogFont` applies an override
  profile (`FontInfo`) to a `LOGFONTW` description in a fixed order: face
  name, absolute height/width, offsets, scales, then the independent fields.
  Offsets and scales read the size left by the absolute step of the same
  call. A height offset keeps the sign and never yields 0; a width offset
  clamps to at least 1. `lround` is modelled exactly over reals.
- **Profile resolver** (`Resolver`). `FontAll` wins first; then the exact
  face name; then `FontFallback`, but only if the name is not installed. The
  installed-font query is a parameter. The resolver reports whether it asked
  that query, and it asks only on the fallback branch.
- **Configuration interpretation** (`ConfigTree`, `FontConfig`,
  `GdiplusConfig`, `Loader`). Their input is an already-parsed tree:
  - `GetFontInfo` reads one profile.
  - `AddFonts` fills the profile store from the `fonts` section.
  - `AddGdiplusFamily` reads one family of the `gdiplus` section.
  - `LoadSettings` dispatches the root entries.
  - Every table insert is an `emplace`, so the first entry for a key wins.
- **GDI+ overrides** (`Gdiplus`). `RemapFamily` applies the family remap.
  `OverrideGpFont` overrides size, style and unit. Its lookup key is the
  name read back from the family handle, not the requested name.
- **Extras**:
  - `StockFonts`: the stock-object ids the stock-font hook replaces.
  - `CreateFont`: `CreateFontW` packs its arguments, truncating `DWORD` to `BYTE`.
  - `FontNames`: the order of font-name records and their grouping by face.

Where the documented design and the code disagree, the model follows the code:

- Only the offsets are guarded against producing 0. A scale can round a
  non-zero size to 0 (`Override.ScaleCanReachZero`).
- `AddGdiplusFontInfo` builds a fresh profile for every entry and stores it
  with `emplace`. So a family keeps only its FIRST size/style/unit setting;
  a second attribute of the same family is dropped
  (`GdiplusConfig.OneFlagPerStoredProfile`, `Loader.OnlyFirstAttributeStored`).
- The generic-family hooks call the saved original
  `GdipCreateFontFamilyFromName` directly, so they skip the remap table.
- `GSOFontMode::UseUserFont` is never selected (`Loader.NeverUserFont`).
- The rounding mode of scaling is `lround`: halves round away from zero.
- The GDI+ `style` tokens are numbered by FontMod's own enumeration, 0..5.
  The value is handed to GDI+ as a `FontStyle` bit set. There, 5 means bold
  and underline, so the `strikeout` token never sets the strikeout bit
  (`Gdiplus.StrikeoutTokenIsBoldUnderline`).

## Model

| member | source | states |
|---|---|---|
| `WideText.CStr` | FontMod.cpp:457-460 | the C-string reading of a buffer is its longest NUL-free prefix: the next character, if any, is NUL |
| `WideText.CStrStopsAtNul` | FontMod.cpp:306-311 | a NUL-free name followed by NUL and anything else reads back as that name |
| `WideText.FaceCopy` | FontMod.cpp:141 | the truncating copy into a 32-slot face buffer gives a NUL-free prefix of the source string of at most 31 characters, and the whole string when it fits |
| `WideText.FaceCopyOfValid` | FontMod.cpp:393 | a face name that already fits the buffer is copied unchanged |
| `WideText.FaceCopyIdempotent` | FontMod.cpp:141 | copying a face name twice gives the same as copying it once |
| `LogFonts.ByteOf` | FontMod.cpp:156-161 | a `bool` stored in a `BYTE` field is 1 for true and 0 for false |
| `Override.LRound` | FontMod.cpp:150-153 | `lround` gives the nearest integer, with halves rounded away from zero |
| `Override.OffsetHeight` | FontMod.cpp:146-147 | a height offset keeps the sign of a non-zero height and never gives 0; the magnitude moves by the offset and is floored at 1 |
| `Override.OffsetWidth` | FontMod.cpp:148-149 | a width offset gives the sum clamped to at least 1, so even a negative width becomes positive |
| `Override.OverrideHeight` | FontMod.cpp:142-153 | the height is left alone when none of its three flags is set; a zero height after the absolute step stays 0; without a scale the offset keeps the sign, never gives 0 and moves the magnitude (floored at 1); with a scale the result is the scaled offset height, or the scaled absolute-step height when there is no offset |
| `Override.OverrideWidth` | FontMod.cpp:144-153 | the width is left alone when none of its three flags is set; a zero width after the absolute step stays 0; without a scale an offset gives `max(1, w + off)`; with a scale the result is the scaled offset width, or the scaled absolute-step width when there is no offset |
| `Override.OverrideLogFont` | FontMod.cpp:136-172 | escapement and orientation never change; height and width are the results of their own step sequences (`OverrideHeight`, `OverrideWidth`), whatever the other dimension's flags; the face changes only for a non-empty profile name, to its buffer-sized copy; each independent field takes the profile value exactly when its flag is set; unflagged sizes stay as they were |
| `Override.ZeroHeightStaysZero` | FontMod.cpp:142-153 | a zero height stays 0: neither offset nor scale applies, including after an absolute override to 0 |
| `Override.ZeroWidthStaysZero` | FontMod.cpp:144-153 | a zero width stays 0 whatever offset or scale is flagged |
| `Override.HeightOffsetGuard` | FontMod.cpp:142-147 | an offset reads the height set by the absolute override of the same call; the result keeps that height's sign and is never 0 |
| `Override.WidthOffsetGuard` | FontMod.cpp:144-149 | a non-zero width after the absolute override becomes `max(1, w + off)` |
| `Override.ScaleAfterOffset` | FontMod.cpp:146-151 | with both flags set, the scale multiplies the offset height, not the original one |
| `Override.HeightScaleOnly` | FontMod.cpp:142-151 | a height scale without an offset multiplies the height the absolute override left |
| `Override.WidthScaleOnly` | FontMod.cpp:144-153 | a width scale without an offset multiplies the width the absolute override left |
| `Override.WidthScaleAfterOffset` | FontMod.cpp:148-153 | with both width flags set, the scale multiplies the offset width, not the original one |
| `Override.AbsoluteOnlySizes` | FontMod.cpp:142-145 | without offset or scale flags, the sizes are exactly the absolute values or the original ones |
| `Override.OverrideIdempotent` | FontMod.cpp:140-171 | a profile with no offset or scale flags, applied twice, gives the same record as applied once |
| `Override.OffsetNotIdempotent` | FontMod.cpp:146-147 | an offset applied twice moves the height twice (10 with +2 gives 14) |
| `Override.HeightOffsetExamples` | FontMod.cpp:146-147 | height 10 with offset -15 gives 1; height -10 with offset 5 gives -15 |
| `Override.ScaleRoundingExamples` | FontMod.cpp:150-151 | 11 scaled by 0.5 gives 6 and -11 gives -6 (halves away from zero) |
| `Override.ScaleCanReachZero` | FontMod.cpp:150-151 | a scale is not guarded: height 1 scaled by 0.25 becomes 0 |
| `Resolver.Resolve` | FontMod.cpp:294-318 | `FontAll` wins without the installed query; otherwise the exact name wins without it; otherwise the query is made iff `FontFallback` exists, and the fallback is chosen iff it exists and the name is not installed |
| `Resolver.CreateFontIndirectEx` | FontMod.cpp:305-353 | the name looked up and asked about is the C string in the face buffer; without a profile the request is passed on unchanged; with one, a copy mutated by that profile is passed on |
| `Resolver.UnaskedQueryIsIrrelevant` | FontMod.cpp:299-318 | when the installed query was not asked, any other answer to it gives the same resolution |
| `Resolver.CatchAllWins` | FontMod.cpp:299-304 | with `FontAll` present, every request is rewritten by that profile, whatever its name or installed state |
| `Resolver.FallbackIffNotInstalled` | FontMod.cpp:305-318 | with no catch-all and no exact entry, a profile is chosen iff `FontFallback` exists and the name is not installed, and then it is the fallback profile |
| `Resolver.InstalledMissPassesThrough` | FontMod.cpp:305-320 | an installed name with no entry of its own and no catch-all passes through unchanged |
| `Resolver.LookupStopsAtNul` | FontMod.cpp:306-311 | characters after the face buffer's terminator play no part in choosing the profile |
| `Gdiplus.StyleTokensMatchVocabulary` | FontMod.cpp:622-645 | the style tokens are exactly regular..strikeout, and each denotes its position 0..5 |
| `Gdiplus.UnitTokensMatchVocabulary` | FontMod.cpp:663-690 | the unit tokens are exactly world..millimeter, and each denotes its position 0..6 |
| `Gdiplus.StrikeoutTokenIsBoldUnderline` | FontMod.cpp:96-104 | the `strikeout` token gives 5, which is GDI+'s bold plus underline and not its strikeout bit 8 |
| `Gdiplus.Int32Of` | FontMod.cpp:648-650 | a `uint32_t` cast to the `int`-based enumeration is the 32-bit two's-complement value with the same bits |
| `Gdiplus.ParseStyle` | FontMod.cpp:617-653 | a token gives its value; any other text gives a value iff it reads as a `uint32_t` |
| `Gdiplus.ParseUnit` | FontMod.cpp:658-698 | a token gives its value; any other text gives a value iff it reads as a `uint32_t` |
| `Gdiplus.RemapFamily` | FontMod.cpp:448-450 | a miss returns the requested name; a hit returns the configured substitute |
| `Gdiplus.OverrideGpFont` | FontMod.cpp:455-484 | when the family name cannot be read, or no profile exists under it, the arguments pass through; otherwise each of size/style/unit is replaced iff its flag is set |
| `Gdiplus.OverrideKeyedByReportedName` | FontMod.cpp:448-481 | after a remap, a profile stored under any name other than the reported family name has no effect, the requested name included |
| `Gdiplus.RemapThenOverrideExample` | FontMod.cpp:448-481 | a request for "Foo" remapped to "Bar" gets the profile under "Bar", not one under "Foo" |
| `ConfigTree.Emplace` | FontMod.cpp:739 | `emplace` adds a missing key and never overwrites a present one |
| `FontConfig.KeyField` | FontMod.cpp:517-591 | each recognised profile key names one field |
| `FontConfig.KeyFieldInverse` | FontMod.cpp:517-591 | every field has its own key, and reading that key gives the field back |
| `FontConfig.NameKeysSetNoField` | FontMod.cpp:512-516 | `replace` and `name` set the face name and no flagged field |
| `FontConfig.SetField` | FontMod.cpp:519-589 | a stream extraction changes exactly one field to the converted scalar |
| `FontConfig.ApplyEntryField` | FontMod.cpp:505-591 | one entry changes a field, and sets its flag, exactly when it is a scalar under that field's key |
| `FontConfig.ReadFontInfoField` | FontMod.cpp:502-594 | every field holds the conversion of the last scalar entry under its key, and its flag is set iff such an entry exists |
| `FontConfig.ReadFontInfoName` | FontMod.cpp:512-516 | the name is the conversion of the last `replace` or `name` entry, empty when that conversion fails |
| `FontConfig.GetFontInfoReads` | FontMod.cpp:502-594 | a profile read from a mapping flags a field iff some scalar entry sits under its key, holds the last such entry's conversion, and takes its name from the last `replace`/`name` entry, empty when there is none |
| `FontConfig.UnmentionedFieldUnset` | FontMod.cpp:502-594 | a field with no scalar entry under its key has its flag unset |
| `FontConfig.AddFonts` | FontMod.cpp:730-741 | reading the `fonts` entries never replaces a profile already stored |
| `FontConfig.AddFontsFirstWins` | FontMod.cpp:730-741 | the store holds a key iff some mapping entry's key converts to it; its profile is the one of the first such entry |
| `GdiplusConfig.GpEntryInfo` | FontMod.cpp:611-702 | the profile built from one entry carries at most the flag its own key names: size always, style or unit exactly when the text parses, nothing for any other key |
| `GdiplusConfig.AddGdiplusFamily` | FontMod.cpp:596-711 | a family whose name does not convert stores nothing; otherwise only that family's key is added to either table, and no stored entry is replaced |
| `GdiplusConfig.RemapRecorded` | FontMod.cpp:603-609 | the first `replace`/`name` entry emplaces family -> substitute when both convert, and the remap table changes in no other way |
| `GdiplusConfig.NoRemapNoChange` | FontMod.cpp:596-611 | a family with no `replace`/`name` entry leaves the remap table as it was |
| `GdiplusConfig.NoAttributeNoFonts` | FontMod.cpp:704-709 | a family none of whose entries carries a flag, such as one holding only a remap or an unreadable style, leaves the attribute table unchanged |
| `GdiplusConfig.OneFlagPerStoredProfile` | FontMod.cpp:611-709 | every attribute profile stored for a family carries exactly one flag |
| `GdiplusConfig.RemapEndsFamily` | FontMod.cpp:603-609 | entries after the first `replace`/`name` entry of a family are never read |
| `GdiplusConfig.FirstAttributeWins` | FontMod.cpp:704-709 | a new family stores the profile of its first attribute entry, when no remap entry precedes it |
| `GdiplusConfig.StoredProfileKept` | FontMod.cpp:704-709 | later entries never replace a stored attribute profile |
| `Loader.LoadSettings` | FontMod.cpp:722-787 | loading fails exactly when the root is not a mapping; otherwise the store and the GDI+ tables are read from all `fonts`/`gdiplus` mappings in order, the generic-family names and `debug` hold their last scalar, the system font is selected iff some `fixGSOFont` scalar is true, and the user stock font never is |
| `Loader.DispatchEntry` | FontMod.cpp:728-785 | each setting is changed only by a root entry under its own key and of the right kind; a `fixGSOFont` scalar can only switch to the system font |
| `Loader.AddGdiplus` | FontMod.cpp:758-765 | reading the `gdiplus` families never replaces a remap or profile already stored |
| `Loader.DispatchTables` | FontMod.cpp:728-765 | the store is `AddFonts` and the GDI+ tables are `AddGdiplus` of all `fonts`/`gdiplus` mapping sections joined in order; a non-mapping section is ignored |
| `Loader.DispatchLastScalars` | FontMod.cpp:766-780 | the three generic-family names hold the conversion of their last scalar setting, empty when it fails, as plain assignments do |
| `Loader.DispatchLastDebug` | FontMod.cpp:781-784 | `debug` holds its last scalar setting, as a plain assignment does |
| `Loader.GsoModeSelected` | FontMod.cpp:743-751 | the system message font is selected iff it already was or some `fixGSOFont` scalar is true |
| `Loader.NeverUserFont` | FontMod.cpp:743-756 | no root entry selects the user stock font |
| `Loader.NcmModeSticks` | FontMod.cpp:745-751 | once a true `fixGSOFont` selects the system message font, a later false does not undo it |
| `Loader.DebugDoesNotDecide` | FontMod.cpp:781-784 | the `debug` switch changes no table the hooks consult |
| `Loader.OnlyFirstAttributeStored` | FontMod.cpp:611-708 | a family with a size and then a style setting gets only the size override |
| `Loader.SizeThenStyleFamily` | FontMod.cpp:611-708 | the same family read on its own stores only the size profile |
| `Loader.UnknownStyleIgnored` | FontMod.cpp:646-656 | a style "fancy" that is not a number sets no flag and stores nothing |
| `StockFonts.ReplacedIds` | FontMod.cpp:416-427 | the stock fonts answered with the replacement are exactly ids 10..17 except the palette at 15 |
| `StockFonts.StockObject` | FontMod.cpp:416-427 | any other id is forwarded as it is |
| `CreateFont.LowByte` | FontMod.cpp:379-386 | a `(BYTE)` cast keeps the value modulo 256, and keeps a value below 256 as it is |
| `CreateFont.PackLogFont` | FontMod.cpp:372-394 | sizes are copied, each of the eight byte fields keeps its argument modulo 256, and the face is copied into its buffer (empty for a null pointer) |
| `CreateFont.PackArgsFor` | FontMod.cpp:372-394 | packing the arguments that describe a valid description gives that description back |
| `CreateFont.CreateFontW` | FontMod.cpp:357-396 | a request no profile applies to reaches the real function exactly as packed; otherwise the packed description mutated by the chosen profile does |
| `FontNames.StrLess` | FontMod.cpp:197-199 | less implies different, and a proper prefix is less |
| `FontNames.NameLess` | FontMod.cpp:196-200 | less implies different; a different face decides the order alone |
| `FontNames.StrLessIrreflexive` | FontMod.cpp:197-199 | no string is less than itself |
| `FontNames.StrLessTransitive` | FontMod.cpp:197-199 | string order is transitive |
| `FontNames.StrLessTrichotomy` | FontMod.cpp:197-199 | of two different strings exactly one is less |
| `FontNames.NameLessStrictTotal` | FontMod.cpp:196-200 | the order on (face, full, style) is a strict total order |
| `FontNames.GroupNames` | FontMod.cpp:231-241 | the groups are keyed by exactly the faces of the records, and each group holds its face |
| `FontNames.GroupNamesContents` | FontMod.cpp:231-241 | there is one group per face; it holds the face name plus each full name that is non-empty and different from it |

## Left out

- Hook installation is not modelled: Detours attach/commit, `DllMain`, and the module and proc-address lookups (FontMod.cpp:819-987). The model does not decide which hooks get attached. For example, the stock-object hook is attached only when `fixGSOFont` selected a mode, and the GDI+ hooks only when their tables are non-empty.
- File and log I/O is not modelled: writing the default configuration, `FormatToFile` logging, and `LoadUserFonts`. The logging branches call `IsFontExist` only to print it, and they decide nothing.
- `IsFontExist` and the enumeration in `LogAllAvailableFonts` are system queries. The installed check is the `installed` parameter. The enumerated records are the input sequence of `GroupNames`; its result does not depend on their order, so the `std::set` order does not matter.
- YAML parsing, `>>` scalar conversions, `read` and `Utf8ToUtf16` are the given functions of `ConfigTree.Conv`. ryml's error callback for a scalar that `>>` cannot convert is not modelled: the model stores the given conversion's value. The callback is set up in RymlCallbacks.hpp, which is not part of this model.
- Override.LRound: computes on the exact real product. The source multiplies two `double`s first, so results can differ when that product is not exactly representable.
- Gdiplus.OverrideGpFont: the `float` size is a real.
- Signed 32-bit overflow of `LONG` arithmetic in the offsets, and an `lround` result outside `long`, are not modelled. Both are undefined or unspecified in C++. Sizes are unbounded integers.
- WideText.FaceCopy: the 31-slot limit counts characters, where `wcsncpy_s` counts UTF-16 units. A name with characters outside the Basic Multilingual Plane is cut later in the model, and the source can leave a lone high surrogate at the cut, which the model cannot represent.
- Gdiplus.RemapFamily: the name is always a string. A null `name` pointer, which FontMod.cpp:448-449 would turn into a `std::wstring` with undefined behaviour, is not modelled.
- Strings are sequences of Unicode scalar values, not UTF-16 code units. Lone surrogates cannot be written. For characters outside the Basic Multilingual Plane, `StrLess` orders by code point, while `std::wstring` orders by code unit.
- The generic-family hooks (FontMod.cpp:487-500) are left out. They pass the configured name straight to the saved original `GdipCreateFontFamilyFromName`, bypassing the remap table. That pointer is only resolved when the remap table is non-empty (FontMod.cpp:934-939). Each hook is attached when its name is non-empty (FontMod.cpp:951-969), so with a generic-family name configured and an empty remap table the hook calls a null pointer. The three names are still read by `Loader.LoadSettings`.
- `MyCreateFontIndirectW` (FontMod.cpp:398-407) is not modelled separately. It copies the description and takes the same path as `Resolver.CreateFontIndirectEx`.
- Only the `LOGFONTW` part of `ENUMLOGFONTEXDVW` is modelled. The full name, style, script and design vector are never touched by an override.
- Creating the replacement stock font (FontMod.cpp:871-899) is a system call. `StockFonts.StockObject` says only which ids are answered with it.
- In the source, the value fields of a fresh `FontInfo` or `GPFontInfo` are uninitialised. The model uses zeros, which are never read while their flags are unset.
