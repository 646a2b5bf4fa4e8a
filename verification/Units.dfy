/**
 Text as sequences of UTF-16 code units, and the character classes the JSON code tests for.
 */
module Units {
  type Unit = u: int | 0 <= u < 0x10000
  type Text = seq<Unit>

  const QUOTE: Unit := 0x22
  const SQUOTE: Unit := 0x27
  const STAR: Unit := 0x2a
  const PLUS: Unit := 0x2b
  const COMMA: Unit := 0x2c
  const MINUS: Unit := 0x2d
  const DOT: Unit := 0x2e
  const SLASH: Unit := 0x2f
  const COLON: Unit := 0x3a
  const LBRACKET: Unit := 0x5b
  const BACKSLASH: Unit := 0x5c
  const RBRACKET: Unit := 0x5d
  const LBRACE: Unit := 0x7b
  const RBRACE: Unit := 0x7d
  const LOWER_B: Unit := 0x62
  const LOWER_E: Unit := 0x65
  const LOWER_F: Unit := 0x66
  const LOWER_N: Unit := 0x6e
  const LOWER_R: Unit := 0x72
  const LOWER_T: Unit := 0x74
  const LOWER_U: Unit := 0x75
  const UPPER_E: Unit := 0x45
  const NEWLINE: Unit := 0x0a
  const RETURN: Unit := 0x0d

  const TRUE_WORD: Text := [0x74, 0x72, 0x75, 0x65]
  const FALSE_WORD: Text := [0x66, 0x61, 0x6c, 0x73, 0x65]
  const NULL_WORD: Text := [0x6e, 0x75, 0x6c, 0x6c]

  /** `cp | 0x20` on a code unit. */
  function LowerBit(u: Unit): Unit {
    if u / 0x20 % 2 == 0 then u + 0x20 else u
  }

  predicate IsDigit(u: Unit) {
    0x30 <= u <= 0x39
  }

  predicate IsHexDigit(u: Unit) {
    IsDigit(u) || 0x61 <= LowerBit(u) <= 0x66
  }

  predicate IsWhitespace(u: Unit) {
    u == 0x20 || u == 0x09 || u == NEWLINE || u == RETURN
  }

  /** The units that may follow a backslash in a strict JSON escape. */
  predicate IsEscapeChar(u: Unit) {
    u == QUOTE || u == BACKSLASH || u == SLASH || u == LOWER_B || u == LOWER_F
    || u == LOWER_N || u == LOWER_R || u == LOWER_T || u == LOWER_U
  }

  predicate AllDigits(t: Text) {
    forall k :: 0 <= k < |t| ==> IsDigit(t[k])
  }

  predicate AllWhitespace(t: Text) {
    forall k :: 0 <= k < |t| ==> IsWhitespace(t[k])
  }

  function HexValue(u: Unit): (v: int)
    requires IsHexDigit(u)
    ensures 0 <= v < 16
  {
    if IsDigit(u) then u - 0x30 else LowerBit(u) - 0x57
  }
}
