/**
 * Wide strings as the Win32 API sees them: NUL-terminated arrays of
 * characters, copied into fixed-size buffers such as `LOGFONTW::lfFaceName`.
 */
module WideText {

  /** An unsigned 8-bit value (`BYTE`). */
  type byte = x: int | 0 <= x < 0x100

  /** An unsigned 32-bit value (`DWORD`, `uint32_t`). */
  type u32 = x: int | 0 <= x < 0x1_0000_0000

  /** Number of slots in a face-name buffer, terminator included. */
  const LF_FACESIZE: nat := 32

  /** A face name that fits a `lfFaceName` buffer: no NUL, room for the terminator. */
  predicate ValidFace(s: string) {
    |s| < LF_FACESIZE && '\0' !in s
  }

  /**
   * The string a C reader sees in `s`: everything before the first NUL.
   */
  function CStr(s: string): (r: string)
    ensures |r| <= |s| && r == s[..|r|]
    ensures '\0' !in r
    ensures |r| < |s| ==> s[|r|] == '\0'
  {
    if |s| == 0 || s[0] == '\0' then [] else [s[0]] + CStr(s[1..])
  }

  /** A string without NUL reads back as itself. */
  lemma {:induction false} CStrOfClean(s: string)
    requires '\0' !in s
    ensures CStr(s) == s
  {
    if |s| > 0 {
      CStrOfClean(s[1..]);
    }
  }

  /** A NUL ends the C string: a clean prefix followed by NUL reads back as that prefix. */
  lemma {:induction false} CStrStopsAtNul(s: string, tail: string)
    requires '\0' !in s
    ensures CStr(s + "\0" + tail) == s
  {
    if |s| == 0 {
      assert (s + "\0" + tail)[0] == '\0';
    } else {
      assert (s + "\0" + tail)[1..] == s[1..] + "\0" + tail;
      CStrStopsAtNul(s[1..], tail);
    }
  }

  /**
   * `wcsncpy_s(dst, LF_FACESIZE, src, _TRUNCATE)`: the C string of `src`,
   * cut to the longest prefix that leaves room for the terminator.
   */
  function FaceCopy(src: string): (r: string)
    ensures ValidFace(r)
    ensures |r| <= |CStr(src)| && r == CStr(src)[..|r|]
    ensures |CStr(src)| < LF_FACESIZE ==> r == CStr(src)
    ensures |CStr(src)| >= LF_FACESIZE ==> |r| == LF_FACESIZE - 1
  {
    var c := CStr(src);
    if |c| < LF_FACESIZE then c else c[..LF_FACESIZE - 1]
  }

  /** Copying a face name that already fits leaves it as it is. */
  lemma FaceCopyOfValid(s: string)
    requires ValidFace(s)
    ensures FaceCopy(s) == s
  {
    CStrOfClean(s);
  }

  /** Copying twice is copying once. */
  lemma FaceCopyIdempotent(s: string)
    ensures FaceCopy(FaceCopy(s)) == FaceCopy(s)
  {
    FaceCopyOfValid(FaceCopy(s));
  }
}
