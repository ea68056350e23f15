/** Bytes, the optional-value datatype, and the few sequence facts every scanner needs. */
module Bytes {

  type byte = b: int | 0 <= b < 256

  datatype Option<+T> = None | Some(value: T)

  const TAB: byte := 0x09
  const LF: byte := 0x0A
  const CR: byte := 0x0D
  const SPACE: byte := 0x20
  const QUOTE: byte := 0x22
  const COMMA: byte := 0x2C
  const COLON: byte := 0x3A
  const LBRACKET: byte := 0x5B
  const BACKSLASH: byte := 0x5C
  const RBRACKET: byte := 0x5D
  const LBRACE: byte := 0x7B
  const RBRACE: byte := 0x7D

  predicate IsWs(c: byte) {
    c == SPACE || c == LF || c == CR || c == TAB
  }

  predicate Has(s: seq<byte>, c: byte) {
    exists k :: 0 <= k < |s| && s[k] == c
  }
}
