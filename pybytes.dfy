/**
 * The Python 2 byte-string operations the station-file header reader relies on: `str.split()` and
 * `str.strip()` of a byte string, whose whitespace is the six ASCII characters of C's `isspace`.
 * Each character of a `string` here stands for one byte.
 */
module PyBytes {
  import PyStr
  import Whitespace

  /** The whitespace of a Python 2 byte string: space, tab, newline, carriage return, VT and FF. */
  predicate IsSpace(c: char)
  {
    c == ' ' || c == '\t' || c == '\n' || c == '\r' || c == '\U{0b}' || c == '\U{0c}'
  }

  predicate AllSpace(s: string) { forall i :: 0 <= i < |s| ==> IsSpace(s[i]) }

  /** `s.split()` of a byte string. */
  function Tokens(s: string): seq<string>
  {
    Whitespace.Tokens(IsSpace, s)
  }

  /** `s.lstrip()` of a byte string. */
  function LStrip(s: string): string
  {
    Whitespace.LStrip(IsSpace, s)
  }

  /** `s.strip()` of a byte string. */
  function Strip(s: string): string
  {
    Whitespace.Strip(IsSpace, s)
  }

  /** Every byte-string whitespace character is whitespace in Python 3 text as well. */
  lemma SpaceIsTextSpace(c: char)
    requires IsSpace(c)
    ensures PyStr.IsSpace(c)
  {
  }

  /** No character of `s` is whitespace only in Python 3 text (such as '\x1c' or U+00A0). */
  predicate Plain(s: string)
  {
    forall i :: 0 <= i < |s| ==> PyStr.IsSpace(s[i]) ==> IsSpace(s[i])
  }

  /**
   * On text without the extra Unicode whitespace, the byte-string `split()` and `strip()` are
   * those of Python 3 text: the two differ only on characters such as '\x1c' or U+00A0.
   */
  lemma AgreesWithText(s: string)
    requires Plain(s)
    ensures Tokens(s) == PyStr.Tokens(s)
    ensures Strip(s) == PyStr.Strip(s)
  {
    forall i | 0 <= i < |s|
      ensures IsSpace(s[i]) == PyStr.IsSpace(s[i])
    {
      if IsSpace(s[i]) {
        SpaceIsTextSpace(s[i]);
      }
    }
    Whitespace.Agree(IsSpace, PyStr.IsSpace, s);
  }
}
