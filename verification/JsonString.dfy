/**
 The JSON string printer (main/json.c, json_print_string): a first pass counts the escapes, a second
 one writes them into the caller's buffer. Its inverse is the string decoder of section 7 of RFC 8259,
 at byte level.
 */
module JsonString {
  import opened Bytes
  import opened Numerals

  // ------------------------------------------------------------------------
  // Escaping
  // ------------------------------------------------------------------------

  /** The letter of a two-character escape. */
  function ShortEscape(c: byte): Option<byte> {
    if c == BACKSLASH then Some(BACKSLASH)
    else if c == QUOTE then Some(QUOTE)
    else if c == 8 then Some(98)    // \b
    else if c == 12 then Some(102)  // \f
    else if c == 10 then Some(110)  // \n
    else if c == 13 then Some(114)  // \r
    else if c == 9 then Some(116)   // \t
    else None
  }

  function EscapeByte(c: byte): (e: seq<byte>)
    ensures 1 <= |e| <= 6
  {
    if c > 31 && c != QUOTE && c != BACKSLASH then [c]
    else match ShortEscape(c)
      case Some(letter) => [BACKSLASH, letter]
      case None => [BACKSLASH, 117, 48, 48, HexDigit(c / 16), HexDigit(c % 16)]
  }

  function Escape(t: seq<byte>): (e: seq<byte>)
    ensures |t| <= |e| <= 6 * |t|
  {
    if t == [] then [] else EscapeByte(t[0]) + Escape(t[1..])
  }

  function Quoted(t: seq<byte>): seq<byte> {
    [QUOTE] + Escape(t) + [QUOTE]
  }

  lemma {:induction false} EscapeAppend(t: seq<byte>, u: seq<byte>)
    ensures Escape(t + u) == Escape(t) + Escape(u)
  {
    if t == [] {
      assert t + u == u;
    } else {
      assert (t + u)[1..] == t[1..] + u;
      EscapeAppend(t[1..], u);
    }
  }

  lemma EscapeNext(t: seq<byte>, i: nat)
    requires i < |t|
    ensures Escape(t[..i + 1]) == Escape(t[..i]) + EscapeByte(t[i])
  {
    assert t[..i + 1] == t[..i] + [t[i]];
    EscapeAppend(t[..i], [t[i]]);
    assert Escape([t[i]]) == EscapeByte(t[i]) + Escape([]);
  }

  /** Where the escape of character i lies in the escaped text. */
  lemma EscapeOfCharacter(t: seq<byte>, i: nat)
    requires i < |t|
    ensures var n, e := |Escape(t[..i])|, EscapeByte(t[i]);
            && |Escape(t[..i + 1])| == n + |e| <= |Escape(t)|
            && forall k :: n <= k < n + |e| ==> Escape(t)[k] == e[k - n]
  {
    EscapeNext(t, i);
    assert t == t[..i + 1] + t[i + 1..];
    EscapeAppend(t[..i + 1], t[i + 1..]);
  }

  // ------------------------------------------------------------------------
  // The printer
  // ------------------------------------------------------------------------

  /** strchr on the characters with a two-character escape. */
  predicate HasShortEscape(c: byte) {
    c == QUOTE || c == BACKSLASH || c == 8 || c == 12 || c == 10 || c == 13 || c == 9
  }

  lemma EscapeSize(c: byte)
    ensures |EscapeByte(c)| == 1 + (if HasShortEscape(c) then 1 else if c < 32 then 5 else 0)
  {
  }

  /** Text that does not grow is text in which nothing was escaped. */
  lemma {:induction false} NothingEscaped(t: seq<byte>)
    ensures |Escape(t)| == |t| ==> Escape(t) == t
  {
    if t != [] {
      NothingEscaped(t[1..]);
      assert [t[0]] + t[1..] == t;
    }
  }

  /** The first pass: additional characters needed, found by walking to the NUL. */
  method CountEscapes(input: seq<byte>) returns (length: nat, escapes: nat)
    requires |CStr(input)| < |input|
    ensures length == |CStr(input)|
    ensures length + escapes == |Escape(CStr(input))|
    ensures escapes == 0 ==> Escape(CStr(input)) == CStr(input)
  {
    ghost var t := CStr(input);
    length, escapes := 0, 0;
    while input[length] != 0
      invariant length <= |t|
      invariant length + escapes == |Escape(t[..length])|
      decreases |t| - length
    {
      EscapeNext(t, length);
      EscapeSize(t[length]);
      var c := input[length];
      if HasShortEscape(c) {
        escapes := escapes + 1;
      } else if c < 32 {
        escapes := escapes + 5;
      }
      length := length + 1;
    }
    assert t[..length] == t;
    NothingEscaped(t);
  }

  /**
   The escape of one character at p; the last index written is returned. sprintf leaves a NUL after
   the four digits, which the next character or the closing quote overwrites.
   */
  method WriteEscaped(output: array<byte>, p: nat, c: byte) returns (last: nat)
    requires p + |EscapeByte(c)| < output.Length
    modifies output
    ensures last == p + |EscapeByte(c)| - 1
    ensures forall k :: p <= k <= last ==> output[k] == EscapeByte(c)[k - p]
    ensures forall k :: 0 <= k < p || last + 1 < k < output.Length ==> output[k] == old(output[k])
  {
    if c > 31 && c != QUOTE && c != BACKSLASH {
      output[p] := c;
      return p;
    }
    output[p] := BACKSLASH;
    match ShortEscape(c) {
      case Some(letter) =>
        output[p + 1] := letter;
        last := p + 1;
      case None =>
        output[p + 1], output[p + 2], output[p + 3] := 117, 48, 48;
        output[p + 4], output[p + 5] := HexDigit(c / 16), HexDigit(c % 16);
        output[p + 6] := 0;
        last := p + 5;
    }
  }

  /** The second pass, when something has to be escaped. */
  method WriteEscapes(input: seq<byte>, ghost t: seq<byte>, output: array<byte>, start: nat)
    requires t == CStr(input) && |t| < |input|
    requires start + |Escape(t)| + 2 <= output.Length
    modifies output
    ensures forall k :: start <= k < start + |Escape(t)| ==> output[k] == Escape(t)[k - start]
    ensures forall k :: 0 <= k < start || start + |Escape(t)| < k < output.Length ==> output[k] == old(output[k])
  {
    var i, p := 0, start;
    while input[i] != 0
      invariant i <= |t| && p == start + |Escape(t[..i])| <= start + |Escape(t)|
      invariant forall k :: start <= k < p ==> output[k] == Escape(t)[k - start]
      invariant forall k :: 0 <= k < start || start + |Escape(t)| < k < output.Length ==> output[k] == old(output[k])
      decreases |t| - i
    {
      p := EscapeOne(t, i, input[i], output, p, start);
      i := i + 1;
    }
    assert t[..i] == t;
  }

  /** One round of the second pass. */
  method EscapeOne(ghost t: seq<byte>, ghost i: nat, c: byte, output: array<byte>, p: nat, ghost start: nat)
    returns (p': nat)
    requires i < |t| && c == t[i] && p == start + |Escape(t[..i])|
    requires p <= start + |Escape(t)| <= output.Length - 2
    requires forall k :: start <= k < p ==> output[k] == Escape(t)[k - start]
    modifies output
    ensures p' == start + |Escape(t[..i + 1])| <= start + |Escape(t)|
    ensures forall k :: start <= k < p' ==> output[k] == Escape(t)[k - start]
    ensures forall k :: 0 <= k < start || start + |Escape(t)| < k < output.Length ==> output[k] == old(output[k])
  {
    EscapeOfCharacter(t, i);
    var last := WriteEscaped(output, p, c);
    p' := last + 1;
  }

  /** memcpy. */
  method CopyText(input: seq<byte>, length: nat, output: array<byte>, start: nat)
    requires length <= |input| && start + length + 2 <= output.Length
    modifies output
    ensures forall k :: start <= k < start + length ==> output[k] == input[k - start]
    ensures forall k :: 0 <= k < start || start + length < k < output.Length ==> output[k] == old(output[k])
  {
    forall k | 0 <= k < length {
      output[start + k] := input[k];
    }
  }

  /** What is written between the quotes. */
  method PrintText(input: seq<byte>, ghost t: seq<byte>, ghost e: seq<byte>, output: array<byte>, start: nat)
    returns (outputLength: nat)
    requires t == CStr(input) && |t| < |input| && e == Escape(t)
    requires start + |e| + 2 <= output.Length
    modifies output
    ensures outputLength == |e|
    ensures forall k :: start <= k < start + |e| ==> output[k] == e[k - start]
    ensures forall k :: 0 <= k < start || start + |e| < k < output.Length ==> output[k] == old(output[k])
  {
    var length, escapes := CountEscapes(input);
    outputLength := length + escapes;
    if escapes == 0 {
      CopyText(input, length, output, start);
      assert e == t == input[..length];
    } else {
      WriteEscapes(input, t, output, start);
    }
  }

  /** The closing quote and the NUL, behind the opening quote and the text. */
  method Close(output: array<byte>, at: nat, outputLength: nat, ghost e: seq<byte>)
    requires outputLength == |e| && at + outputLength + 2 < output.Length && output[at] == QUOTE
    requires forall k :: at + 1 <= k < at + 1 + |e| ==> output[k] == e[k - (at + 1)]
    modifies output
    ensures var q := [QUOTE] + e + [QUOTE];
            && (forall k :: at <= k < at + |q| ==> output[k] == q[k - at])
            && output[at + |q|] == 0
    ensures forall k :: 0 <= k < output.Length && k != at + |e| + 1 && k != at + |e| + 2 ==> output[k] == old(output[k])
  {
    output[at + outputLength + 1] := QUOTE;
    output[at + outputLength + 2] := 0;
  }

  /**
   Writes the quoted text and a NUL at output[at..]; no index beyond the NUL is touched. A missing
   output or input is refused.
   */
  method JsonPrintString(input: Option<seq<byte>>, output: array?<byte>, at: nat) returns (ok: bool)
    requires input.Some? ==> |CStr(input.value)| < |input.value|
    requires input.Some? && output != null ==> at + |Quoted(CStr(input.value))| < output.Length
    modifies output
    ensures ok <==> output != null && input.Some?
    ensures ok ==>
              var q := Quoted(CStr(input.value));
              && (forall k :: at <= k < at + |q| ==> output[k] == q[k - at])
              && output[at + |q|] == 0
              && (forall k :: 0 <= k < at || at + |q| < k < output.Length ==> output[k] == old(output[k]))
    ensures !ok && output != null ==> output[..] == old(output[..])
  {
    if output == null || input.None? {
      return false;
    }
    ghost var t, e := CStr(input.value), Escape(CStr(input.value));
    output[at] := QUOTE;
    var outputLength := PrintText(input.value, t, e, output, at + 1);
    Close(output, at, outputLength, e);
    ok := true;
  }

  // ------------------------------------------------------------------------
  // The decoder of section 7 of RFC 8259
  // ------------------------------------------------------------------------

  function FourHex(s: seq<byte>): Option<nat> {
    if |s| < 4 then None
    else match (HexValue(s[0]), HexValue(s[1]), HexValue(s[2]), HexValue(s[3]))
      case (Some(a), Some(b), Some(c), Some(d)) => Some(((a * 16 + b) * 16 + c) * 16 + d)
      case _ => None
  }

  /** UTF-8 for a code point below 65536; surrogates are refused. */
  function Utf8(v: nat): Option<seq<byte>> {
    if v < 0x80 then Some([v])
    else if v < 0x800 then Some([0xC0 + v / 64, 0x80 + v % 64])
    else if 0xD800 <= v < 0xE000 || v >= 0x10000 then None
    else Some([0xE0 + v / 4096, 0x80 + v / 64 % 64, 0x80 + v % 64])
  }

  /** One character, escaped or not: the bytes it stands for, and how many bytes it takes. */
  function ParseChar(s: seq<byte>): (r: Option<(seq<byte>, nat)>)
    requires s != []
    ensures r.Some? ==> 1 <= r.value.1 <= |s|
  {
    if s[0] < 32 || s[0] == '"' as int then None
    else if s[0] != '\\' as int then Some(([s[0]], 1))
    else if |s| < 2 then None
    else if s[1] == '"' as int || s[1] == '\\' as int || s[1] == 47 then Some(([s[1]], 2))
    else if s[1] == 98 then Some(([8], 2))
    else if s[1] == 102 then Some(([12], 2))
    else if s[1] == 110 then Some(([10], 2))
    else if s[1] == 114 then Some(([13], 2))
    else if s[1] == 116 then Some(([9], 2))
    else if s[1] != 117 then None
    else match FourHex(s[2..])
      case None => None
      case Some(v) => match Utf8(v) { case None => None case Some(u) => Some((u, 6)) }
  }

  /** The characters up to the closing quote, and what follows the quote. */
  function ParseStringBody(s: seq<byte>): (r: Option<(seq<byte>, seq<byte>)>)
    ensures r.Some? ==> |r.value.1| < |s|
    decreases |s|
  {
    if s == [] then None
    else if s[0] == '"' as int then Some(([], s[1..]))
    else match ParseChar(s)
      case None => None
      case Some((bytes, n)) =>
        match ParseStringBody(s[n..])
        case None => None
        case Some((text, rest)) => Some((bytes + text, rest))
  }

  // ------------------------------------------------------------------------
  // Round trip
  // ------------------------------------------------------------------------

  lemma ParseEscapedByte(c: byte, rest: seq<byte>)
    ensures var e := EscapeByte(c);
            e[0] != QUOTE && ParseChar(e + rest) == Some(([c], |e|))
  {
    var e := EscapeByte(c);
    var s := e + rest;
    assert s[0] == e[0];
    if |e| == 6 {
      assert s[2..][0] == 48 && s[2..][1] == 48 && s[2..][2] == e[4] && s[2..][3] == e[5];
      assert HexValue(e[4]) == Some(c / 16) && HexValue(e[5]) == Some(c % 16);
      assert FourHex(s[2..]) == Some(c);
    } else if |e| == 2 {
      assert s[1] == e[1];
    }
  }

  /** For every byte string, what the printer writes decodes back to it, up to the closing quote. */
  lemma {:induction false} EscapeRoundTrip(t: seq<byte>, rest: seq<byte>)
    ensures ParseStringBody(Escape(t) + [QUOTE] + rest) == Some((t, rest))
  {
    var s := Escape(t) + [QUOTE] + rest;
    if t == [] {
      assert s == [QUOTE] + rest;
    } else {
      var e := EscapeByte(t[0]);
      var more := Escape(t[1..]) + [QUOTE] + rest;
      assert s == e + more;
      ParseEscapedByte(t[0], more);
      assert s[0] == e[0];
      assert s[|e|..] == more;
      EscapeRoundTrip(t[1..], rest);
      assert [t[0]] + t[1..] == t;
    }
  }

  lemma {:induction false} PrinterIsInjective(t: seq<byte>, u: seq<byte>)
    requires Quoted(t) == Quoted(u)
    ensures t == u
  {
    QuotedRest(t);
    QuotedRest(u);
  }

  lemma QuotedRest(t: seq<byte>)
    ensures ParseStringBody(Quoted(t)[1..]) == Some((t, []))
  {
    assert Quoted(t)[1..] == Escape(t) + [QUOTE] + [];
    EscapeRoundTrip(t, []);
  }

  /** No control byte, and in particular no NUL, is printed raw. */
  lemma {:induction false} EscapeHasNoControls(t: seq<byte>)
    ensures forall i :: 0 <= i < |Escape(t)| ==> Escape(t)[i] >= 32
  {
    if t != [] {
      EscapeHasNoControls(t[1..]);
    }
  }

  ghost predicate Plain(t: seq<byte>) {
    forall i :: 0 <= i < |t| ==> t[i] > 31 && t[i] != QUOTE && t[i] != BACKSLASH
  }

  /** Text without quotes, backslashes and controls is printed as it is. */
  lemma {:induction false} PlainTextIsKept(t: seq<byte>)
    requires Plain(t)
    ensures Escape(t) == t
  {
    if t != [] {
      PlainTextIsKept(t[1..]);
      assert [t[0]] + t[1..] == t;
    }
  }
}
