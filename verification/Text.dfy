/** The character classes and substring tests that spec validation and the verify lint share. */
module Text {

  /** Unicode White_Space, the class that `trim` and `split_whitespace` go by. */
  predicate IsSpace(c: char) {
    var n := c as int;
    || 0x09 <= n <= 0x0D || n == 0x20 || n == 0x85 || n == 0xA0 || n == 0x1680
    || 0x2000 <= n <= 0x200A || n == 0x2028 || n == 0x2029 || n == 0x202F || n == 0x205F || n == 0x3000
  }

  /** `s.trim().is_empty()` */
  predicate Blank(s: string) {
    forall c :: c in s ==> IsSpace(c)
  }

  /** The 25 code points that Unicode gives the property White_Space. */
  lemma WhiteSpaceIs(c: char)
    ensures IsSpace(c) <==>
              (c as int) in {0x09, 0x0A, 0x0B, 0x0C, 0x0D, 0x20, 0x85, 0xA0, 0x1680,
                             0x2000, 0x2001, 0x2002, 0x2003, 0x2004, 0x2005, 0x2006, 0x2007, 0x2008, 0x2009, 0x200A,
                             0x2028, 0x2029, 0x202F, 0x205F, 0x3000}
  {}
}
