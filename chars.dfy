/**
  * UTF-16 text as the deserializer sees it: a .NET `string` is a sequence of
  * 16-bit code units, and a `\uXXXX` escape can produce any of them, unpaired
  * surrogate halves included.
  */
module Chars {

  /** One UTF-16 code unit (a .NET `char`). */
  newtype CodeUnit = x: int | 0 <= x < 0x1_0000

  /** A .NET `string`. */
  type Text = seq<CodeUnit>

  // The characters the grammar names.
  const Tab: CodeUnit := 0x09
  const LineFeed: CodeUnit := 0x0A
  const FormFeed: CodeUnit := 0x0C
  const CarriageReturn: CodeUnit := 0x0D
  const Backspace: CodeUnit := 0x08
  const Space: CodeUnit := 0x20
  const Quote: CodeUnit := 0x22
  const Apostrophe: CodeUnit := 0x27
  const OpenParen: CodeUnit := 0x28
  const CloseParen: CodeUnit := 0x29
  const Plus: CodeUnit := 0x2B
  const Comma: CodeUnit := 0x2C
  const Minus: CodeUnit := 0x2D
  const Dot: CodeUnit := 0x2E
  const Slash: CodeUnit := 0x2F
  const Colon: CodeUnit := 0x3A
  const UpperE: CodeUnit := 0x45
  const LeftBracket: CodeUnit := 0x5B
  const Backslash: CodeUnit := 0x5C
  const RightBracket: CodeUnit := 0x5D
  const Underscore: CodeUnit := 0x5F
  const LowerB: CodeUnit := 0x62
  const LowerE: CodeUnit := 0x65
  const LowerF: CodeUnit := 0x66
  const LowerN: CodeUnit := 0x6E
  const LowerR: CodeUnit := 0x72
  const LowerT: CodeUnit := 0x74
  const LowerU: CodeUnit := 0x75
  const LeftBrace: CodeUnit := 0x7B
  const RightBrace: CodeUnit := 0x7D

  /**
    * `Char.IsWhiteSpace`: the members of the Unicode space, line and paragraph
    * separator categories, plus U+0009..U+000D, U+0085 and U+00A0.
    */
  predicate IsWhiteSpace(c: CodeUnit) {
    || 0x09 <= c <= 0x0D
    || c == 0x20
    || c == 0x85
    || c == 0xA0
    || c == 0x1680
    || 0x2000 <= c <= 0x200A
    || c == 0x2028
    || c == 0x2029
    || c == 0x202F
    || c == 0x205F
    || c == 0x3000
  }

  /** What `Char.IsLetterOrDigit` answers on the ASCII range. */
  predicate IsAsciiLetterOrDigit(c: CodeUnit) {
    || 0x30 <= c <= 0x39
    || 0x41 <= c <= 0x5A
    || 0x61 <= c <= 0x7A
  }

  /** A high or low surrogate half. */
  predicate IsSurrogate(c: CodeUnit) {
    0xD800 <= c <= 0xDFFF
  }

  /** Text written as a Dafny string literal whose characters all lie in the Basic Multilingual Plane. */
  function Units(s: string): (t: Text)
    requires forall k :: 0 <= k < |s| ==> s[k] as int < 0x1_0000
    ensures |t| == |s|
    ensures forall k :: 0 <= k < |s| ==> t[k] as int == s[k] as int
  {
    if s == [] then [] else [s[0] as int as CodeUnit] + Units(s[1..])
  }
}
