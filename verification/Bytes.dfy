/** Byte strings, as Go's `[]byte` and `string` hold them, and lists of them. */
module Bytes {
  type Byte = b: int | 0 <= b < 256
  type Bytes = seq<Byte>

  const LF: Byte := 0x0A
  const CR: Byte := 0x0D
  const SPACE: Byte := 0x20
  const QUOTE: Byte := 0x22
  const COMMA: Byte := 0x2C
  const COLON: Byte := 0x3A
  const LBRACKET: Byte := 0x5B
  const BACKSLASH: Byte := 0x5C
  const RBRACKET: Byte := 0x5D
  const LBRACE: Byte := 0x7B
  const RBRACE: Byte := 0x7D

  const NULL: Bytes := [0x6E, 0x75, 0x6C, 0x6C]

  lemma Ascii()
    ensures LF == '\n' as int && CR == '\r' as int && SPACE == ' ' as int && QUOTE == '"' as int
    ensures COMMA == ',' as int && COLON == ':' as int && BACKSLASH == '\\' as int
    ensures LBRACKET == '[' as int && RBRACKET == ']' as int && LBRACE == '{' as int && RBRACE == '}' as int
  {
  }

  predicate IsDigit(b: Byte) { 0x30 <= b <= 0x39 }

  /** The parts, one after the other. It grows at the end, as a stream does. */
  function Flatten<T>(parts: seq<seq<T>>): seq<T> {
    if parts == [] then [] else Flatten(parts[..|parts| - 1]) + parts[|parts| - 1]
  }

  lemma {:induction false} FlattenSnoc<T>(parts: seq<seq<T>>, part: seq<T>)
    ensures Flatten(parts + [part]) == Flatten(parts) + part
  {
    assert (parts + [part])[..|parts|] == parts;
  }

  lemma {:induction false} FlattenAppend<T>(xs: seq<seq<T>>, ys: seq<seq<T>>)
    ensures Flatten(xs + ys) == Flatten(xs) + Flatten(ys)
    decreases |ys|
  {
    if ys == [] {
      assert xs + ys == xs;
    } else {
      var n := |ys| - 1;
      FlattenAppend(xs, ys[..n]);
      assert xs + ys == (xs + ys[..n]) + [ys[n]];
      FlattenSnoc(xs + ys[..n], ys[n]);
    }
  }
}
