/** White space as Python's `str.strip` and `str.rstrip` see it. */
module Whitespace {
  predicate Space(c: char) {
    var n := c as int;
    || 9 <= n <= 13 || 28 <= n <= 32 || n == 0x85 || n == 0xA0 || n == 0x1680 || 0x2000 <= n <= 0x200A
    || n == 0x2028 || n == 0x2029 || n == 0x202F || n == 0x205F || n == 0x3000
  }

  /** Within ASCII: blank, tab, line feed, vertical tab, form feed, carriage return and the four separators. */
  lemma AsciiSpace(c: char)
    requires c as int < 128
    ensures Space(c) <==> c in {' ', '\t', '\n', '\r'} || c as int in {11, 12, 28, 29, 30, 31}
  {
  }
}
