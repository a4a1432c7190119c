/**
 The header reader of the HTTP server and the request that delivers new credentials
 (main/http_server_if.c, http_server_get_header and POST /connect.json).
 */
module HttpHeader {
  import opened Bytes
  import opened TextSearch
  import opened WifiConfig

  // ------------------------------------------------------------------------
  // The line behind a name
  // ------------------------------------------------------------------------

  predicate EndsLine(b: byte) {
    b == NUL || b == LF || b == CR
  }

  ghost predicate OneLine(v: seq<byte>) {
    forall k :: 0 <= k < |v| ==> !EndsLine(v[k])
  }

  /** The text up to the end of its line. */
  function Line(s: seq<byte>): (v: seq<byte>)
    ensures |v| <= |s| && v == s[..|v|] && OneLine(v)
    ensures |v| < |s| ==> EndsLine(s[|v|])
  {
    if s == [] || EndsLine(s[0]) then [] else [s[0]] + Line(s[1..])
  }

  lemma {:induction false} LineIs(s: seq<byte>, v: seq<byte>)
    requires |v| <= |s| && v == s[..|v|] && OneLine(v) && (|v| < |s| ==> EndsLine(s[|v|]))
    ensures Line(s) == v
  {
    if v != [] {
      LineIs(s[1..], v[1..]);
    }
  }

  /** OutOfBounds: the reader passes the end of what was received. */
  datatype Found = Absent | Value(value: seq<byte>) | OutOfBounds

  /** The header's value in a text that a NUL ends, or that just stops. */
  function Header(text: seq<byte>, nul: bool, name: seq<byte>): Found {
    FoundIn(TailAt(text, |name|, FirstFrom(text, name, 0)), nul)
  }

  /** The text behind a name of this length. */
  function TailAt(text: seq<byte>, length: nat, first: Option<nat>): Option<seq<byte>> {
    match first
    case None => None
    case Some(i) => Some(Rest(text, i + length))
  }

  function FoundIn(tail: Option<seq<byte>>, nul: bool): Found {
    match tail
    case None => if nul then Absent else OutOfBounds
    case Some(t) => Behind(t, nul)
  }

  function Rest(text: seq<byte>, i: nat): seq<byte> {
    if i <= |text| then text[i..] else []
  }

  /** The line that starts here, if its end is there. */
  function Behind(tail: seq<byte>, nul: bool): Found {
    if !nul && |Line(tail)| == |tail| then OutOfBounds else Value(Line(tail))
  }

  // ------------------------------------------------------------------------
  // The reader
  // ------------------------------------------------------------------------

  /** A NUL ends the text within what was received. */
  predicate HasNul(request: seq<byte>) {
    |CStr(request)| < |request|
  }

  /**
   http_server_get_header: where the value starts, and how long it is. It is in bounds unless it runs
   past the end of what was received.
   */
  method GetHeader(request: seq<byte>, name: seq<byte>) returns (ret: Option<nat>, len: nat, inBounds: bool)
    requires NulFree(name) && name != []
    ensures Returns(Header(CStr(request), HasNul(request), name), request, ret, len, inBounds)
  {
    var found := StrStr(request, name);
    FirstIsFirst(CStr(request), name, 0);
    ret, len, inBounds := ValueAt(request, found, |name|);
  }

  /** The reader's results say this of the header. */
  ghost predicate Returns(found: Found, request: seq<byte>, ret: Option<nat>, len: nat, inBounds: bool) {
    match found
    case OutOfBounds => !inBounds
    case Absent => inBounds && ret.None?
    case Value(v) => inBounds && ret.Some? && ret.value + len <= |request| && v == request[ret.value..ret.value + len]
  }

  /** The value behind the name, if that was found. */
  method ValueAt(request: seq<byte>, found: Option<nat>, length: nat) returns (ret: Option<nat>, len: nat, inBounds: bool)
    requires found.Some? ==> found.value + length <= |CStr(request)|
    ensures Returns(FoundIn(TailAt(CStr(request), length, found), HasNul(request)), request, ret, len, inBounds)
  {
    if found.None? {
      return None, 0, HasNul(request);
    }
    var start := found.value + length;
    ret := Some(start);
    len := LineLength(request, start);
    inBounds := start + len < |request|;
    BehindText(request, CStr(request), start, len);
  }

  /** The loop over the value. */
  method LineLength(request: seq<byte>, start: nat) returns (len: nat)
    requires start <= |CStr(request)|
    ensures start + len <= |CStr(request)|
    ensures forall k :: start <= k < start + len ==> !EndsLine(request[k])
    ensures start + len < |request| ==> EndsLine(request[start + len])
  {
    ghost var text := CStr(request);
    len := 0;
    var ptr := start;
    while ptr < |request| && request[ptr] != NUL && request[ptr] != LF && request[ptr] != CR
      invariant start <= ptr == start + len <= |text|
      invariant forall k :: start <= k < ptr ==> !EndsLine(request[k])
      decreases |text| - ptr
    {
      len := len + 1;
      ptr := ptr + 1;
    }
  }

  lemma BehindText(request: seq<byte>, text: seq<byte>, start: nat, len: nat)
    requires |text| <= |request| && text == request[..|text|] && (|text| < |request| ==> request[|text|] == NUL)
    requires start + len <= |text| && forall k :: start <= k < start + len ==> !EndsLine(request[k])
    requires start + len < |request| ==> EndsLine(request[start + len])
    ensures Returns(Behind(Rest(text, start), |text| < |request|), request, Some(start), len, start + len < |request|)
  {
    LineOfText(request, text, start, len);
  }

  lemma LineOfText(request: seq<byte>, text: seq<byte>, start: nat, len: nat)
    requires |text| <= |request| && text == request[..|text|] && (|text| < |request| ==> request[|text|] == NUL)
    requires start + len <= |text| && forall k :: start <= k < start + len ==> !EndsLine(request[k])
    requires start + len < |request| ==> EndsLine(request[start + len])
    ensures Line(text[start..]) == request[start..start + len]
  {
    assert request[start..start + len] == text[start..][..len];
    LineIs(text[start..], request[start..start + len]);
  }

  // ------------------------------------------------------------------------
  // POST /connect.json
  // ------------------------------------------------------------------------

  /** "x-custom-ssid: " and "x-custom-pwd: ". */
  const SSID_HEADER: seq<byte> := [120, 45, 99, 117, 115, 116, 111, 109, 45, 115, 115, 105, 100, 58, 32]
  const PWD_HEADER: seq<byte> := [120, 45, 99, 117, 115, 116, 111, 109, 45, 112, 119, 100, 58, 32]

  datatype Post = Taken(config: Config) | BadRequest | BeyondRequest

  /** What becomes of a request. */
  function Posted(text: seq<byte>, nul: bool): Post {
    var ssid, password := Header(text, nul, SSID_HEADER), Header(text, nul, PWD_HEADER);
    if ssid.OutOfBounds? || password.OutOfBounds? then BeyondRequest
    else if ssid.Value? && |ssid.value| <= MAX_SSID_SIZE && password.Value? && |password.value| <= MAX_PASSWORD_SIZE
    then Taken(Config(ssid.value, password.value))
    else BadRequest
  }

  /** The branch of http_server_netconn_serve that stores the credentials. */
  method ReadPost(request: seq<byte>) returns (post: Post)
    ensures post == Posted(CStr(request), HasNul(request))
  {
    var ssid, lenS, okS := GetHeader(request, SSID_HEADER);
    var password, lenP, okP := GetHeader(request, PWD_HEADER);
    if !okS || !okP {
      return BeyondRequest;
    }
    post := BadRequest;
    if ssid.Some? && lenS <= MAX_SSID_SIZE && password.Some? && lenP <= MAX_PASSWORD_SIZE {
      post := Taken(Config(request[ssid.value..ssid.value + lenS], request[password.value..password.value + lenP]));
    }
  }

  /** What is stored fits its fields. */
  lemma {:induction false} PostedFits(text: seq<byte>, nul: bool)
    ensures Posted(text, nul).Taken? ==> Fits(Posted(text, nul).config)
  {
    if Posted(text, nul).Taken? {
      HeaderIsOneLine(text, nul, SSID_HEADER);
      HeaderIsOneLine(text, nul, PWD_HEADER);
    }
  }

  lemma HeaderIsOneLine(text: seq<byte>, nul: bool, name: seq<byte>)
    ensures Header(text, nul, name).Value? ==> NulFree(Header(text, nul, name).value)
  {
  }

  // ------------------------------------------------------------------------
  // What a browser's request delivers
  // ------------------------------------------------------------------------

  /** Headers before, the two credential headers in this order, and the rest of the request. */
  function Request(before: seq<byte>, ssid: seq<byte>, password: seq<byte>, after: seq<byte>): seq<byte> {
    before + (Ascii("x-custom-ssid: ") + (ssid + (Ascii("\r\n") + (Ascii("x-custom-pwd: ") + (password + (Ascii("\r\n") + after))))))
  }

  /** These are the names the reader looks for. */
  lemma HeaderNames()
    ensures SSID_HEADER == Ascii("x-custom-ssid: ") && PWD_HEADER == Ascii("x-custom-pwd: ") && CRLF == Ascii("\r\n")
  {
  }

  lemma RequestForm(before: seq<byte>, ssid: seq<byte>, password: seq<byte>, after: seq<byte>)
    ensures Request(before, ssid, password, after)
         == before + (SSID_HEADER + (ssid + (CRLF + (PWD_HEADER + (password + (CRLF + after))))))
  {
    HeaderNames();
  }

  lemma NoLineBreaksInNames()
    ensures OneLine(SSID_HEADER) && OneLine(PWD_HEADER)
  {
  }

  lemma EndOfLineIsBehind(s: seq<byte>, p: seq<byte>, i: nat, end: nat)
    requires OccursAt(s, p, i) && OneLine(p) && i <= end < |s| && EndsLine(s[end])
    ensures i + |p| <= end
  {
    forall m | i <= m < i + |p| ensures !EndsLine(s[m]) {
      assert s[i + (m - i)] == p[m - i];
    }
  }

  /** Text of one line never starts in lines that end before it ends. */
  lemma {:induction false} OccursBehind(a: seq<byte>, b: seq<byte>, p: seq<byte>, i: nat)
    requires p != [] && OneLine(p)
    requires a != [] ==> EndsLine(a[|a| - 1])
    ensures OccursAt(a + b, p, i) <==> OccursAt(a, p, i) || (i >= |a| && OccursAt(b, p, i - |a|))
  {
    var s := a + b;
    if OccursAt(s, p, i) {
      if i < |a| {
        EndOfLineIsBehind(s, p, i, |a| - 1);
        forall k | 0 <= k < |p| ensures a[i + k] == p[k] { assert s[i + k] == p[k]; }
      } else {
        forall k | 0 <= k < |p| ensures b[i - |a| + k] == p[k] { assert s[i + k] == p[k]; }
      }
    }
    if i >= |a| && OccursAt(b, p, i - |a|) {
      forall k | 0 <= k < |p| ensures s[i + k] == p[k] { assert b[i - |a| + k] == p[k]; }
    }
  }

  ghost predicate Shifted(here: Option<nat>, there: Option<nat>, n: nat) {
    there == match here case None => None case Some(i) => Some(n + i)
  }

  /** Text in which the name never starts is skipped. */
  lemma {:induction false} FirstBehind(a: seq<byte>, b: seq<byte>, name: seq<byte>)
    requires forall i: nat :: OccursAt(a + b, name, i) <==> i >= |a| && OccursAt(b, name, i - |a|)
    ensures Shifted(FirstFrom(b, name, 0), FirstFrom(a + b, name, 0), |a|)
  {
    FirstIsFirst(b, name, 0);
    FirstIsFirst(a + b, name, 0);
    var here := FirstFrom(b, name, 0);
    assert here.Some? ==> OccursAt(a + b, name, |a| + here.value);
  }

  lemma RestBehind(a: seq<byte>, b: seq<byte>, i: nat, j: nat)
    requires j == |a| + i
    ensures Rest(a + b, j) == Rest(b, i)
  {
  }

  lemma TailBehind(a: seq<byte>, b: seq<byte>, length: nat, here: Option<nat>, there: Option<nat>)
    requires Shifted(here, there, |a|)
    ensures TailAt(a + b, length, there) == TailAt(b, length, here)
  {
    if here.Some? {
      RestBehind(a, b, here.value + length, there.value + length);
    }
  }

  lemma {:induction false} FirstBehindLines(a: seq<byte>, b: seq<byte>, name: seq<byte>)
    requires name != [] && OneLine(name) && !Contains(a, name)
    requires a != [] ==> EndsLine(a[|a| - 1])
    ensures Shifted(FirstFrom(b, name, 0), FirstFrom(a + b, name, 0), |a|)
  {
    forall i: nat ensures OccursAt(a + b, name, i) <==> i >= |a| && OccursAt(b, name, i - |a|) {
      OccursBehind(a, b, name, i);
    }
    FirstBehind(a, b, name);
  }

  /** Lines without the name are skipped. */
  lemma {:induction false} HeaderBehindLines(a: seq<byte>, b: seq<byte>, nul: bool, name: seq<byte>)
    requires name != [] && OneLine(name) && !Contains(a, name)
    requires a != [] ==> EndsLine(a[|a| - 1])
    ensures Header(a + b, nul, name) == Header(b, nul, name)
  {
    FirstBehindLines(a, b, name);
    TailBehind(a, b, |name|, FirstFrom(b, name, 0), FirstFrom(a + b, name, 0));
  }

  lemma {:induction false} FirstBehindName(h: seq<byte>, b: seq<byte>, name: seq<byte>, k: nat)
    requires k < |h| && k < |name| && h[k] != name[k]
    requires forall i :: 1 <= i < |h| ==> h[i] != name[0]
    ensures Shifted(FirstFrom(b, name, 0), FirstFrom(h + b, name, 0), |h|)
  {
    forall i: nat ensures OccursAt(h + b, name, i) <==> i >= |h| && OccursAt(b, name, i - |h|) {
      OccursBehindName(h, b, name, k, i);
    }
    FirstBehind(h, b, name);
  }

  /** Another header's name, whose first byte it does not hold again, is skipped. */
  lemma {:induction false} HeaderBehindName(h: seq<byte>, b: seq<byte>, nul: bool, name: seq<byte>, k: nat)
    requires k < |h| && k < |name| && h[k] != name[k]
    requires forall i :: 1 <= i < |h| ==> h[i] != name[0]
    ensures Header(h + b, nul, name) == Header(b, nul, name)
  {
    FirstBehindName(h, b, name, k);
    TailBehind(h, b, |name|, FirstFrom(b, name, 0), FirstFrom(h + b, name, 0));
  }

  lemma OccursBehindName(h: seq<byte>, b: seq<byte>, name: seq<byte>, k: nat, i: nat)
    requires k < |h| && k < |name| && h[k] != name[k]
    requires forall i :: 1 <= i < |h| ==> h[i] != name[0]
    ensures OccursAt(h + b, name, i) <==> i >= |h| && OccursAt(b, name, i - |h|)
  {
    var s := h + b;
    if i < |h| {
      assert s[i + 0] == h[i] && s[0 + k] == h[k];
    } else {
      OccursInRest(h, b, name, i - |h|);
    }
  }

  lemma {:induction false} HeaderHere(nul: bool, name: seq<byte>, v: seq<byte>, rest: seq<byte>)
    requires OneLine(v) && rest != [] && EndsLine(rest[0])
    ensures Header(name + (v + rest), nul, name) == Value(v)
  {
    var s := name + (v + rest);
    assert OccursAt(s, name, 0);
    assert Rest(s, |name|) == v + rest;
    LineIs(v + rest, v);
  }

  /** A value that holds the name itself is cut at its first occurrence. */
  lemma {:induction false} HeaderInside(nul: bool, name: seq<byte>, v: seq<byte>, rest: seq<byte>, i: nat)
    requires FirstFrom(v, name, 0) == Some(i) && OneLine(v) && rest != [] && EndsLine(rest[0])
    ensures i + |name| <= |v| && Header(v + rest, nul, name) == Value(v[i + |name|..])
  {
    FirstInside(name, v, rest, i);
    var w := v[i + |name|..];
    assert Rest(v + rest, i + |name|) == w + rest;
    LineIs(w + rest, w);
    assert FirstFrom(v + rest, name, 0) == Some(i);
  }

  lemma {:induction false} FirstInside(name: seq<byte>, v: seq<byte>, rest: seq<byte>, i: nat)
    requires FirstFrom(v, name, 0) == Some(i)
    ensures i + |name| <= |v| && FirstFrom(v + rest, name, 0) == Some(i)
  {
    FirstIsFirst(v, name, 0);
    forall j: nat | j <= i ensures OccursAt(v + rest, name, j) <==> j == i {
      OccursInStart(v, rest, name, j);
    }
    FirstIs(v + rest, name, 0, i);
  }

  /** The password the server reads: an SSID holding the password's header name shadows the real one. */
  function PasswordRead(ssid: seq<byte>, password: seq<byte>): seq<byte> {
    match FirstFrom(ssid, PWD_HEADER, 0)
    case None => password
    case Some(i) => if i + |PWD_HEADER| <= |ssid| then ssid[i + |PWD_HEADER|..] else password
  }

  lemma {:induction false} SsidIsRead(before: seq<byte>, ssid: seq<byte>, password: seq<byte>, after: seq<byte>, nul: bool)
    requires OneLine(ssid) && !Contains(before, SSID_HEADER)
    requires before != [] ==> EndsLine(before[|before| - 1])
    ensures Header(Request(before, ssid, password, after), nul, SSID_HEADER) == Value(ssid)
  {
    RequestForm(before, ssid, password, after);
    NoLineBreaksInNames();
    var rest := CRLF + (PWD_HEADER + (password + (CRLF + after)));
    HeaderBehindLines(before, SSID_HEADER + (ssid + rest), nul, SSID_HEADER);
    HeaderHere(nul, SSID_HEADER, ssid, rest);
  }

  lemma {:induction false} PasswordBehindSsid(ssid: seq<byte>, password: seq<byte>, after: seq<byte>, nul: bool)
    requires OneLine(ssid) && OneLine(password)
    ensures Header(ssid + (CRLF + (PWD_HEADER + (password + (CRLF + after)))), nul, PWD_HEADER)
         == Value(PasswordRead(ssid, password))
  {
    var own := PWD_HEADER + (password + (CRLF + after));
    FirstIsFirst(ssid, PWD_HEADER, 0);
    match FirstFrom(ssid, PWD_HEADER, 0)
    case None =>
      NoLineBreaksInNames();
      assert ssid + (CRLF + own) == (ssid + CRLF) + own;
      forall i: nat ensures !OccursAt(ssid + CRLF, PWD_HEADER, i) {
        NotInLine(ssid, PWD_HEADER, i);
      }
      HeaderBehindLines(ssid + CRLF, own, nul, PWD_HEADER);
      HeaderHere(nul, PWD_HEADER, password, CRLF + after);
    case Some(i) => HeaderInside(nul, PWD_HEADER, ssid, CRLF + own, i);
  }

  lemma NotInLine(v: seq<byte>, name: seq<byte>, i: nat)
    requires name != [] && OneLine(name) && !OccursAt(v, name, i)
    ensures !OccursAt(v + CRLF, name, i)
  {
    if i + |name| <= |v| {
      OccursInStart(v, CRLF, name, i);
    } else if i + |name| <= |v| + 2 {
      var k := if i < |v| then |v| - i else 0;
      assert EndsLine((v + CRLF)[i + k]) && !EndsLine(name[k]);
    }
  }

  lemma {:induction false} PasswordIsRead(before: seq<byte>, ssid: seq<byte>, password: seq<byte>, after: seq<byte>, nul: bool)
    requires OneLine(ssid) && OneLine(password) && !Contains(before, PWD_HEADER)
    requires before != [] ==> EndsLine(before[|before| - 1])
    ensures Header(Request(before, ssid, password, after), nul, PWD_HEADER) == Value(PasswordRead(ssid, password))
  {
    RequestForm(before, ssid, password, after);
    NoLineBreaksInNames();
    var rest := ssid + (CRLF + (PWD_HEADER + (password + (CRLF + after))));
    HeaderBehindLines(before, SSID_HEADER + rest, nul, PWD_HEADER);
    PasswordBehindSsidName(rest, nul);
    PasswordBehindSsid(ssid, password, after, nul);
  }

  lemma PasswordBehindSsidName(rest: seq<byte>, nul: bool)
    ensures Header(SSID_HEADER + rest, nul, PWD_HEADER) == Header(rest, nul, PWD_HEADER)
  {
    HeaderBehindName(SSID_HEADER, rest, nul, PWD_HEADER, 9);
  }

  /**
   What a request stores, for every SSID and password of one line each. The password sent is the one
   stored unless the SSID itself holds the password's header name.
   */
  lemma {:induction false} PostDelivers(before: seq<byte>, ssid: seq<byte>, password: seq<byte>, after: seq<byte>, nul: bool)
    requires OneLine(ssid) && OneLine(password)
    requires !Contains(before, SSID_HEADER) && !Contains(before, PWD_HEADER)
    requires before != [] ==> EndsLine(before[|before| - 1])
    ensures var read := PasswordRead(ssid, password);
            Posted(Request(before, ssid, password, after), nul)
            == if |ssid| <= 32 && |read| <= 64 then Taken(Config(ssid, read)) else BadRequest
  {
    SsidIsRead(before, ssid, password, after, nul);
    PasswordIsRead(before, ssid, password, after, nul);
  }

  predicate EndsWith(s: seq<byte>, t: seq<byte>) {
    |t| <= |s| && s[|s| - |t|..] == t
  }

  /** The SSID does not stand in the password's way. */
  ghost predicate Unshadowed(ssid: seq<byte>, password: seq<byte>) {
    Contains(ssid, PWD_HEADER) ==>
      && FirstFrom(ssid, PWD_HEADER, 0) == Some(|ssid| - |password| - |PWD_HEADER|)
      && EndsWith(ssid, password)
  }

  lemma {:induction false} ReadsPasswordIff(ssid: seq<byte>, password: seq<byte>)
    ensures PasswordRead(ssid, password) == password <==> Unshadowed(ssid, password)
  {
    FirstIsFirst(ssid, PWD_HEADER, 0);
  }

  /** The credentials sent are the ones stored if and only if they fit and the SSID does not shadow the password. */
  lemma {:induction false} StoredAsSentIff(before: seq<byte>, ssid: seq<byte>, password: seq<byte>, after: seq<byte>, nul: bool)
    requires OneLine(ssid) && OneLine(password)
    requires !Contains(before, SSID_HEADER) && !Contains(before, PWD_HEADER)
    requires before != [] ==> EndsLine(before[|before| - 1])
    ensures Posted(Request(before, ssid, password, after), nul) == Taken(Config(ssid, password))
       <==> |ssid| <= 32 && |password| <= 64 && Unshadowed(ssid, password)
  {
    PostDelivers(before, ssid, password, after, nul);
    ReadsPasswordIff(ssid, password);
  }

  /** An SSID that is the password's header name and one more byte hides every other password. */
  lemma {:induction false} ShadowingSsid(password: seq<byte>, after: seq<byte>, nul: bool)
    requires OneLine(password)
    ensures var ssid := PWD_HEADER + [33];
            && |ssid| <= 32 && OneLine(ssid)
            && Posted(Request([], ssid, password, after), nul) == Taken(Config(ssid, [33]))
  {
    var ssid := PWD_HEADER + [33];
    NoLineBreaksInNames();
    assert OccursAt(ssid, PWD_HEADER, 0);
    FirstIs(ssid, PWD_HEADER, 0, 0);
    assert PasswordRead(ssid, password) == [33];
    forall i: nat ensures !OccursAt([], SSID_HEADER, i) && !OccursAt([], PWD_HEADER, i) {
    }
    PostDelivers([], ssid, password, after, nul);
  }
}
