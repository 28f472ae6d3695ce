/** Character classes of Python's `str` methods, restricted to ASCII text.
    On ASCII strings `isdigit`, `isspace` and `upper` agree with these definitions. */
module Ascii {

  /** Every character of `s` is in the 7-bit ASCII range. */
  predicate IsAscii(s: string) {
    forall i :: 0 <= i < |s| ==> s[i] as int < 128
  }

  /** `c.isdigit()` for an ASCII character. */
  predicate IsDigit(c: char) {
    '0' <= c <= '9'
  }

  /** `c.isspace()` for an ASCII character: space, tab, line feed, vertical tab,
      form feed, carriage return and the four separators 0x1C to 0x1F. */
  predicate IsSpace(c: char) {
    c == ' ' || 9 <= c as int <= 13 || 28 <= c as int <= 31
  }

  /** `c.upper()` for an ASCII character: only 'a' to 'z' change. */
  function ToUpper(c: char): char {
    if 'a' <= c <= 'z' then (c as int - 32) as char else c
  }
}
