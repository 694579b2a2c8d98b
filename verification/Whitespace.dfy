/** White space and line terminators of ECMAScript. */
module Whitespace {
  /** What `String.prototype.trim` removes. */
  predicate Blank(c: char) {
    var n := c as int;
    9 <= n <= 13 || n == 0x20 || n == 0xA0 || n == 0x1680 || 0x2000 <= n <= 0x200A || n == 0x2028 || n == 0x2029
    || n == 0x202F || n == 0x205F || n == 0x3000 || n == 0xFEFF
  }
}
