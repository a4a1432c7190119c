/**
 The chunked transfer coding of section 4.1 of RFC 7230: a decoder without chunk extensions and
 trailers, and the coding of a list of chunks that it inverts.
 */
module ChunkedCoding {
  import opened Bytes
  import opened Numerals

  // ------------------------------------------------------------------------
  // Decoder
  // ------------------------------------------------------------------------

  /** The value of a hexadecimal number and of the digits that follow it, and what follows those. */
  function ReadHex(value: nat, s: seq<byte>): (r: (nat, seq<byte>))
    ensures |r.1| <= |s|
    decreases |s|
  {
    if s == [] || HexValue(s[0]).None? then (value, s)
    else ReadHex(16 * value + HexValue(s[0]).value, s[1..])
  }

  predicate StartsLine(s: seq<byte>) {
    |s| >= 2 && s[0] == 13 && s[1] == 10
  }

  /** Size, line end, data, line end. The empty chunk is also the end of the body, without trailer. */
  function ReadChunk(s: seq<byte>): (r: Option<(seq<byte>, seq<byte>)>)
    ensures r.Some? ==> |r.value.1| < |s|
  {
    if s == [] || HexValue(s[0]).None? then None
    else
      var (n, line) := ReadHex(0, s);
      if !StartsLine(line) then None else ReadData(n, line[2..])
  }

  function ReadData(n: nat, s: seq<byte>): (r: Option<(seq<byte>, seq<byte>)>)
    ensures r.Some? ==> |r.value.1| <= |s|
  {
    if |s| >= n && StartsLine(s[n..]) then Some((s[..n], s[n + 2..])) else None
  }

  /** The body up to its empty chunk, and what follows it. */
  function Decode(s: seq<byte>): (r: Option<(seq<byte>, seq<byte>)>)
    ensures r.Some? ==> |r.value.1| < |s|
    decreases |s|
  {
    match ReadChunk(s)
    case None => None
    case Some((data, after)) =>
      if data == [] then Some(([], after))
      else match Decode(after)
        case None => None
        case Some((body, rest)) => Some((data + body, rest))
  }

  // ------------------------------------------------------------------------
  // Coding, and its inverse
  // ------------------------------------------------------------------------

  /** printf's %x. */
  function HexText(n: nat): (t: seq<byte>)
    ensures t != [] && forall i :: 0 <= i < |t| ==> HexValue(t[i]).Some?
  {
    if n < 16 then [HexDigit(n)] else HexText(n / 16) + [HexDigit(n % 16)]
  }

  function SizeLine(d: seq<byte>): seq<byte> {
    HexText(|d|) + CRLF
  }

  function ChunkText(d: seq<byte>): seq<byte> {
    SizeLine(d) + (d + CRLF)
  }

  function Encode(chunks: seq<seq<byte>>): seq<byte> {
    if chunks == [] then ChunkText([]) else ChunkText(chunks[0]) + Encode(chunks[1..])
  }

  function Flatten(parts: seq<seq<byte>>): seq<byte> {
    if parts == [] then [] else parts[0] + Flatten(parts[1..])
  }

  predicate EndsHex(s: seq<byte>) {
    s == [] || HexValue(s[0]).None?
  }

  lemma {:induction false} ReadHexAppend(value: nat, d: seq<byte>, last: byte, rest: seq<byte>)
    requires HexValue(last).Some? && forall i :: 0 <= i < |d| ==> HexValue(d[i]).Some?
    requires EndsHex(rest)
    ensures ReadHex(value, d + [last] + rest) == (16 * ReadHex(value, d).0 + HexValue(last).value, rest)
    decreases |d|
  {
    var s := d + [last] + rest;
    if d == [] {
      assert s[1..] == rest;
      assert ReadHex(value, s) == ReadHex(16 * value + HexValue(last).value, rest);
    } else {
      assert s[1..] == d[1..] + [last] + rest;
      ReadHexAppend(16 * value + HexValue(d[0]).value, d[1..], last, rest);
    }
  }

  lemma {:induction false} HexRoundTrip(n: nat, rest: seq<byte>)
    requires EndsHex(rest)
    ensures ReadHex(0, HexText(n) + rest) == (n, rest)
    decreases n
  {
    if n < 16 {
      assert HexText(n) + rest == [] + [HexDigit(n)] + rest;
      ReadHexAppend(0, [], HexDigit(n), rest);
    } else {
      HexRoundTrip(n / 16, []);
      assert HexText(n / 16) + [] == HexText(n / 16);
      ReadHexAppend(0, HexText(n / 16), HexDigit(n % 16), rest);
      assert HexText(n) + rest == HexText(n / 16) + [HexDigit(n % 16)] + rest;
    }
  }

  lemma {:induction false} ReadChunkForm(s: seq<byte>, n: nat, line: seq<byte>, data: seq<byte>)
    requires s != [] && HexValue(s[0]).Some? && ReadHex(0, s) == (n, line)
    requires line == CRLF + data
    ensures ReadChunk(s) == ReadData(n, data)
  {
    assert line[2..] == data;
  }

  lemma {:induction false} DataRoundTrip(d: seq<byte>, rest: seq<byte>)
    ensures ReadData(|d|, d + (CRLF + rest)) == Some((d, rest))
  {
    var s := d + (CRLF + rest);
    assert s[..|d|] == d && s[|d|..] == CRLF + rest && s[|d| + 2..] == rest;
  }

  lemma {:induction false} ChunkRoundTrip(d: seq<byte>, rest: seq<byte>)
    ensures ReadChunk(ChunkText(d) + rest) == Some((d, rest))
  {
    var data := d + (CRLF + rest);
    var s := HexText(|d|) + (CRLF + data);
    assert ChunkText(d) + rest == s;
    assert s[0] == HexText(|d|)[0];
    HexRoundTrip(|d|, CRLF + data);
    ReadChunkForm(s, |d|, CRLF + data, data);
    DataRoundTrip(d, rest);
  }

  ghost predicate NoneEmpty(chunks: seq<seq<byte>>) {
    forall i :: 0 <= i < |chunks| ==> chunks[i] != []
  }

  /** Decoding the coded chunks gives back their concatenation. */
  lemma {:induction false} EncodeRoundTrip(chunks: seq<seq<byte>>, rest: seq<byte>)
    requires NoneEmpty(chunks)
    ensures Decode(Encode(chunks) + rest) == Some((Flatten(chunks), rest))
  {
    if chunks == [] {
      ChunkRoundTrip([], rest);
    } else {
      var tail := Encode(chunks[1..]) + rest;
      assert Encode(chunks) + rest == ChunkText(chunks[0]) + tail;
      EncodeRoundTrip(chunks[1..], rest);
      ChunkRoundTrip(chunks[0], tail);
      assert chunks[0] != [];
    }
  }

  // ------------------------------------------------------------------------
  // A body that is cut short is never complete
  // ------------------------------------------------------------------------

  lemma {:induction false} ReadHexExtends(value: nat, s: seq<byte>, more: seq<byte>)
    requires ReadHex(value, s).1 != []
    ensures ReadHex(value, s + more) == (ReadHex(value, s).0, ReadHex(value, s).1 + more)
    decreases |s|
  {
    if s == [] {
    } else if HexValue(s[0]).Some? {
      assert (s + more)[1..] == s[1..] + more;
      ReadHexExtends(16 * value + HexValue(s[0]).value, s[1..], more);
    }
  }

  lemma {:induction false} ReadDataExtends(n: nat, s: seq<byte>, more: seq<byte>)
    requires ReadData(n, s).Some?
    ensures ReadData(n, s + more) == Some((ReadData(n, s).value.0, ReadData(n, s).value.1 + more))
  {
    assert (s + more)[n..] == s[n..] + more;
    assert (s + more)[..n] == s[..n];
    assert (s + more)[n + 2..] == s[n + 2..] + more;
  }

  lemma {:induction false} ReadChunkExtends(s: seq<byte>, more: seq<byte>)
    requires ReadChunk(s).Some?
    ensures ReadChunk(s + more) == Some((ReadChunk(s).value.0, ReadChunk(s).value.1 + more))
  {
    var (n, line) := ReadHex(0, s);
    ReadHexExtends(0, s, more);
    assert (line + more)[2..] == line[2..] + more;
    ReadDataExtends(n, line[2..], more);
  }

  lemma {:induction false} DecodeExtends(s: seq<byte>, more: seq<byte>)
    requires Decode(s).Some?
    ensures Decode(s + more) == Some((Decode(s).value.0, Decode(s).value.1 + more))
    decreases |s|
  {
    ReadChunkExtends(s, more);
    var (data, after) := ReadChunk(s).value;
    if data != [] {
      DecodeExtends(after, more);
    }
  }

  /** No proper beginning of a coded body decodes to a body. */
  lemma {:induction false} CutBodyIsIncomplete(chunks: seq<seq<byte>>, s: seq<byte>)
    requires NoneEmpty(chunks) && |s| < |Encode(chunks)| && s == Encode(chunks)[..|s|]
    ensures Decode(s).None?
  {
    if Decode(s).Some? {
      var more := Encode(chunks)[|s|..];
      DecodeExtends(s, more);
      assert s + more == Encode(chunks) == Encode(chunks) + [];
      EncodeRoundTrip(chunks, []);
      assert false;
    }
  }
}
