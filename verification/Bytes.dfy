/** Bytes, the handful of ASCII codes the copy stream depends on, and a plain option type. */
module Bytes {

  newtype byte = x: int | 0 <= x < 256

  const LF: byte := 10
  const CR: byte := 13
  const DOT: byte := 46
  const COLON: byte := 58

  const CRLF: seq<byte> := [CR, LF]

  datatype Option<+T> = None | Some(value: T)

  /** True if a CRLF stands at position `i` of `s`. */
  predicate CrLfAt(s: seq<byte>, i: int) {
    0 <= i && i + 1 < |s| && s[i] == CR && s[i + 1] == LF
  }

  predicate EndsInCrLf(s: seq<byte>) {
    CrLfAt(s, |s| - 2)
  }

  lemma Associates<T>(a: seq<T>, b: seq<T>, c: seq<T>)
    ensures (a + b) + c == a + (b + c)
  {
  }

  lemma StartsWith<T>(a: seq<T>, b: seq<T>)
    ensures a <= a + b
  {
  }

  /** Cutting a line and its CRLF off. */
  lemma CutLine(line: seq<byte>, more: seq<byte>)
    ensures var s := line + CRLF + more;
            s[..|line|] == line && s[|line| + 2..] == more && CrLfAt(s, |line|)
  {
  }
}
