/** Bytes, zero-terminated text and text literals, as the C sources use them. */
module Bytes {

  type byte = b: int | 0 <= b < 256

  datatype Option<+T> = None | Some(value: T)

  const NUL: byte := 0
  const LF: byte := 10
  const CR: byte := 13
  const QUOTE: byte := 34
  const COMMA: byte := 44
  const BACKSLASH: byte := 92
  const CRLF: seq<byte> := [CR, LF]

  function Min(a: nat, b: nat): nat {
    if a <= b then a else b
  }

  /** The bytes of a text literal. */
  function Ascii(s: string): (b: seq<byte>)
    ensures |b| == |s|
    ensures forall i :: 0 <= i < |s| ==> b[i] == s[i] as int % 256
  {
    seq(|s|, i requires 0 <= i < |s| => s[i] as int % 256)
  }

  function Zeros(n: nat): (z: seq<byte>)
    ensures |z| == n
    ensures forall i :: 0 <= i < n ==> z[i] == 0
  {
    seq(n, i => 0)
  }

  ghost predicate NulFree(s: seq<byte>) {
    forall i :: 0 <= i < |s| ==> s[i] != 0
  }

  /** The text a C string function sees: everything before the first NUL. */
  function CStr(s: seq<byte>): (t: seq<byte>)
    ensures |t| <= |s| && t == s[..|t|]
    ensures NulFree(t)
    ensures |t| < |s| ==> s[|t|] == 0
  {
    if s == [] || s[0] == 0 then [] else [s[0]] + CStr(s[1..])
  }

  lemma {:induction false} CStrStops(t: seq<byte>, rest: seq<byte>)
    requires NulFree(t)
    requires rest == [] || rest[0] == 0
    ensures CStr(t + rest) == t
  {
    if t == [] {
      assert t + rest == rest;
    } else {
      assert (t + rest)[1..] == t[1..] + rest;
      CStrStops(t[1..], rest);
    }
  }
}
