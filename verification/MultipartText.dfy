/**
 The fixed texts of a file upload (main/http_file_upload.c): the request, the part header and the closing
 boundary, and what a server is told by them.
 */
module MultipartText {
  import opened Bytes
  import opened TextSearch

  // ------------------------------------------------------------------------
  // The texts
  // ------------------------------------------------------------------------

  function Boundary(): (b: seq<byte>)
    ensures |b| == 26
  {
    Ascii("-----z9Y6ivbmznZNE23n-----")
  }

  /** The two sides of the file name in MULTIPART_BODY_HEADER_TEMPLATE. */
  function TemplateHead(): (t: seq<byte>)
    ensures |t| == 85
  {
    BeforeName() + Ascii("\"file\"; filename=\"")
  }

  function BeforeName(): (t: seq<byte>)
    ensures |t| == 67
  {
    Ascii("--") + Boundary() + Ascii("\r\n") + Disposition()
  }

  function Disposition(): (t: seq<byte>)
    ensures |t| == 37
  {
    Ascii("Content-Disposition: form-data; name=")
  }

  function TemplateTail(): (t: seq<byte>)
    ensures |t| == 29
  {
    Ascii("\"\r\nContent-Type: text/csv\r\n\r\n")
  }

  function PartHeader(fnDst: seq<byte>): (h: seq<byte>)
    ensures |h| == 114 + |fnDst|
  {
    TemplateHead() + fnDst + TemplateTail()
  }

  function Closer(): (c: seq<byte>)
    ensures |c| == 32
  {
    Ascii("--") + Boundary() + Ascii("--\n\r")
  }

  /** MULTIPART_REQUEST. */
  function MultipartRequest(): (r: seq<byte>)
    ensures r != []
  {
    RequestStart() + Ascii("boundary=") + Boundary() + Ascii("\r\nTransfer-Encoding:chunked\r\n\r\n")
  }

  function RequestStart(): (r: seq<byte>)
    ensures r != []
  {
    RequestLine() + (HeaderLines() + Ascii("Content-Type:multipart/form-data; "))
  }

  function RequestLine(): (r: seq<byte>)
    ensures r != []
  {
    Ascii("POST http://192.168.1.169:80/ HTTP/1.0\r\n")
  }

  function HeaderLines(): seq<byte> {
    Ascii("Host:192.168.1.169\r\n") + Ascii("User-Agent: esp-idf/3.0 esp32\r\n")
  }

  // ------------------------------------------------------------------------
  // What the server is told
  // ------------------------------------------------------------------------

  /** The text up to the first such byte. */
  function UpTo(s: seq<byte>, stop: byte): (t: seq<byte>)
    ensures |t| <= |s| && Lacks(t, stop)
  {
    if s == [] || s[0] == stop then [] else [s[0]] + UpTo(s[1..], stop)
  }

  /** The text between the first occurrence of a key and the next such byte. */
  function Behind(s: seq<byte>, key: seq<byte>, stop: byte): Option<seq<byte>> {
    match FirstFrom(s, key, 0)
    case None => None
    case Some(i) => if i + |key| <= |s| then Some(UpTo(s[i + |key|..], stop)) else None
  }

  ghost predicate Lacks(s: seq<byte>, b: byte) {
    forall i :: 0 <= i < |s| ==> s[i] != b
  }

  lemma {:induction false} UpToStop(t: seq<byte>, stop: byte, rest: seq<byte>)
    requires Lacks(t, stop) && rest != [] && rest[0] == stop
    ensures UpTo(t + rest, stop) == t
  {
    if t != [] {
      assert (t + rest)[1..] == t[1..] + rest;
      UpToStop(t[1..], stop, rest);
    } else {
      assert t + rest == rest;
    }
  }

  /** Behind text that lacks the key's first byte. */
  lemma {:induction false} BehindText(before: seq<byte>, key: seq<byte>, t: seq<byte>, stop: byte, rest: seq<byte>)
    requires key != [] && Lacks(before, key[0])
    ensures Behind(before + key + (t + rest), key, stop) == Some(UpTo(t + rest, stop))
  {
    var s := before + key + (t + rest);
    forall j: nat | j < |before| ensures !OccursAt(s, key, j) {
      assert s[j + 0] == before[j];
    }
    assert OccursAt(s, key, |before|);
    FirstIs(s, key, 0, |before|);
    assert s[|before| + |key|..] == t + rest;
  }

  lemma {:induction false} BehindTextIff(s: seq<byte>, before: seq<byte>, key: seq<byte>, t: seq<byte>, stop: byte, rest: seq<byte>)
    requires key != [] && Lacks(before, key[0]) && rest != [] && rest[0] == stop
    requires s == before + key + t + rest
    ensures Behind(s, key, stop) == Some(t) <==> Lacks(t, stop)
  {
    assert s == before + key + (t + rest);
    BehindText(before, key, t, stop, rest);
    if Lacks(t, stop) {
      UpToStop(t, stop, rest);
    }
  }

  /** ASCII text without this letter. */
  ghost predicate Without(s: string, b: char) {
    b <= '~' && forall i :: 0 <= i < |s| ==> s[i] <= '~' && s[i] != b
  }

  lemma LacksLetter(s: string, b: char)
    requires Without(s, b)
    ensures Lacks(Ascii(s), b as int)
  {
  }

  lemma LacksBoth(a: seq<byte>, c: seq<byte>, b: byte)
    requires Lacks(a, b) && Lacks(c, b)
    ensures Lacks(a + c, b)
  {
  }

  lemma StartLacksKey()
    ensures Lacks(RequestStart(), 'b' as int)
  {
    EndsLackKey();
    LinesLackKey();
  }

  lemma EndsLackKey()
    ensures Lacks(RequestLine(), 'b' as int) && Lacks(Ascii("Content-Type:multipart/form-data; "), 'b' as int)
  {
    LacksLetter("POST http://192.168.1.169:80/ HTTP/1.0\r\n", 'b');
    LacksLetter("Content-Type:multipart/form-data; ", 'b');
  }

  lemma LinesLackKey()
    ensures Lacks(HeaderLines(), 'b' as int)
  {
    LacksLetter("Host:192.168.1.169\r\n", 'b');
    LacksLetter("User-Agent: esp-idf/3.0 esp32\r\n", 'b');
  }

  lemma HeaderLacksQuote()
    ensures Lacks(BeforeName(), '"' as int)
  {
    LacksLetter("--", '"');
    LacksLetter("-----z9Y6ivbmznZNE23n-----", '"');
    LacksLetter("\r\n", '"');
    LacksLetter("Content-Disposition: form-data; name=", '"');
  }

  lemma BoundaryKey()
    ensures var key, rest := Ascii("boundary="), Ascii("\r\nTransfer-Encoding:chunked\r\n\r\n");
            key != [] && key[0] == 'b' as int && rest != [] && rest[0] == 13
  {
  }

  /** The boundary that the request names. */
  lemma BoundaryIsNamed()
    ensures Behind(MultipartRequest(), Ascii("boundary="), 13) == Some(Ascii("-----z9Y6ivbmznZNE23n-----"))
  {
    StartLacksKey();
    BoundaryKey();
    LacksLetter("-----z9Y6ivbmznZNE23n-----", '\r');
    BehindTextIff(MultipartRequest(), RequestStart(), Ascii("boundary="), Boundary(), 13,
                  Ascii("\r\nTransfer-Encoding:chunked\r\n\r\n"));
  }

  lemma NameKey()
    ensures var key, rest := Ascii("\"file\"; filename=\""), TemplateTail();
            key != [] && key[0] == '"' as int && rest != [] && rest[0] == '"' as int
  {
  }

  /** The server reads the destination name from the part header if and only if it holds no quote. */
  lemma NameIsReadIff(fnDst: seq<byte>)
    ensures Behind(PartHeader(fnDst), Ascii("\"file\"; filename=\""), '"' as int) == Some(fnDst) <==> Lacks(fnDst, '"' as int)
  {
    HeaderLacksQuote();
    NameKey();
    BehindTextIff(PartHeader(fnDst), BeforeName(), Ascii("\"file\"; filename=\""), fnDst, '"' as int, TemplateTail());
  }

  /** Header and closer are set off by that boundary. */
  lemma BoundaryIsUsed(fnDst: seq<byte>)
    ensures var line := Ascii("--") + Boundary() + Ascii("\r\n");
            |line| <= |PartHeader(fnDst)| && PartHeader(fnDst)[..|line|] == line
    ensures Closer() == Ascii("--") + Boundary() + Ascii("--\n\r")
  {
    var line := Ascii("--") + Boundary() + Ascii("\r\n");
    var rest := Disposition() + Ascii("\"file\"; filename=\"") + fnDst + TemplateTail();
    assert PartHeader(fnDst) == line + rest;
  }
}
