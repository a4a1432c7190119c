/**
 A reader for the JSON texts the firmware serves: sections 2 to 7 of RFC 8259 for arrays, objects,
 strings and integers. It is the independent reference that the printers are proved against.
 */
module JsonParser {
  import opened Bytes
  import opened JsonString
  import opened Numerals

  datatype Json =
    | JString(text: seq<byte>)
    | JNumber(value: int)
    | JArray(items: seq<Json>)
    | JObject(members: seq<(seq<byte>, Json)>)

  const LBRACKET: byte := 91
  const RBRACKET: byte := 93
  const LBRACE: byte := 123
  const RBRACE: byte := 125
  const COLON: byte := 58

  predicate IsSpace(b: byte) {
    b == 32 || b == 9 || b == 10 || b == 13
  }

  function SkipSpace(s: seq<byte>): (r: seq<byte>)
    ensures |r| <= |s|
    ensures s != [] && !IsSpace(s[0]) ==> r == s
  {
    if s != [] && IsSpace(s[0]) then SkipSpace(s[1..]) else s
  }

  // ------------------------------------------------------------------------
  // Integers
  // ------------------------------------------------------------------------

  /** An integer without sign; no leading zeros. */
  function ParseNat(s: seq<byte>): (r: Option<(nat, seq<byte>)>)
    ensures r.Some? ==> |r.value.1| < |s|
  {
    if s == [] || !IsDigit(s[0]) then None
    else if s[0] == 48 then Some((0, s[1..]))
    else Some(ParseDigits(s[0] - 48, s[1..]))
  }

  function ParseInt(s: seq<byte>): (r: Option<(int, seq<byte>)>)
    ensures r.Some? ==> |r.value.1| < |s|
  {
    if s != [] && s[0] == '-' as int then
      match ParseNat(s[1..])
      case None => None
      case Some((n, rest)) => Some((-(n as int), rest))
    else
      match ParseNat(s)
      case None => None
      case Some((n, rest)) => Some((n as int, rest))
  }

  // ------------------------------------------------------------------------
  // Values
  // ------------------------------------------------------------------------

  function ParseValue(s: seq<byte>): (r: Option<(Json, seq<byte>)>)
    ensures r.Some? ==> |r.value.1| < |s|
    decreases |s|, 2
  {
    if s == [] then None
    else if s[0] == '"' as int then
      match ParseStringBody(s[1..])
      case None => None
      case Some((text, rest)) => Some((JString(text), rest))
    else if s[0] == '[' as int then
      var inner := SkipSpace(s[1..]);
      if inner != [] && inner[0] == ']' as int then Some((JArray([]), inner[1..]))
      else match ParseItems(inner)
        case None => None
        case Some((items, rest)) => Some((JArray(items), rest))
    else if s[0] == '{' as int then
      var inner := SkipSpace(s[1..]);
      if inner != [] && inner[0] == '}' as int then Some((JObject([]), inner[1..]))
      else match ParseMembers(inner)
        case None => None
        case Some((members, rest)) => Some((JObject(members), rest))
    else match ParseInt(s)
      case None => None
      case Some((n, rest)) => Some((JNumber(n), rest))
  }

  /** One or more values separated by commas, up to and including the closing bracket. */
  function ParseItems(s: seq<byte>): (r: Option<(seq<Json>, seq<byte>)>)
    ensures r.Some? ==> |r.value.1| < |s|
    decreases |s|, 3
  {
    match ParseValue(s)
    case None => None
    case Some((item, after)) =>
      var next := SkipSpace(after);
      if next == [] then None
      else if next[0] == ']' as int then Some(([item], next[1..]))
      else if next[0] != ',' as int then None
      else match ParseItems(SkipSpace(next[1..]))
        case None => None
        case Some((items, rest)) => Some(([item] + items, rest))
  }

  /** One name and value. */
  function ParseMember(s: seq<byte>): (r: Option<((seq<byte>, Json), seq<byte>)>)
    ensures r.Some? ==> |r.value.1| < |s|
    decreases |s|, 0
  {
    if s == [] || s[0] != '"' as int then None
    else match ParseStringBody(s[1..])
      case None => None
      case Some((name, after)) =>
        var colon := SkipSpace(after);
        if colon == [] || colon[0] != ':' as int then None
        else match ParseValue(SkipSpace(colon[1..]))
          case None => None
          case Some((value, rest)) => Some(((name, value), rest))
  }

  /** One or more members separated by commas, up to and including the closing brace. */
  function ParseMembers(s: seq<byte>): (r: Option<(seq<(seq<byte>, Json)>, seq<byte>)>)
    ensures r.Some? ==> |r.value.1| < |s|
    decreases |s|, 1
  {
    match ParseMember(s)
    case None => None
    case Some((member, after)) =>
      var next := SkipSpace(after);
      if next == [] then None
      else if next[0] == '}' as int then Some(([member], next[1..]))
      else if next[0] != ',' as int then None
      else match ParseMembers(SkipSpace(next[1..]))
        case None => None
        case Some((members, rest)) => Some(([member] + members, rest))
  }

  /** A whole text: one value with optional space around it. */
  function Parse(s: seq<byte>): Option<Json> {
    match ParseValue(SkipSpace(s))
    case None => None
    case Some((value, rest)) => if SkipSpace(rest) == [] then Some(value) else None
  }

  // ------------------------------------------------------------------------
  // Reading back printed integers
  // ------------------------------------------------------------------------

  lemma NatRoundTrip(n: nat, rest: seq<byte>)
    requires EndsNumber(rest)
    ensures ParseNat(Digits(n) + rest) == Some((n, rest))
  {
    var s := Digits(n) + rest;
    DigitsRoundTrip(n, rest);
    assert s[0] == Digits(n)[0];
    if s[0] == 48 {
      assert s[1..] == rest;
    }
  }

  /** Every integer, negative ones included. */
  lemma IntRoundTrip(n: int, rest: seq<byte>)
    requires EndsNumber(rest)
    ensures ParseInt(Decimal(n) + rest) == Some((n, rest))
  {
    var d := Digits(if n < 0 then -n else n);
    if n < 0 {
      NatRoundTrip(-n, rest);
      SignedForm(d + rest, -n, rest);
      assert Decimal(n) + rest == [MINUS] + (d + rest);
    } else {
      NatRoundTrip(n, rest);
      assert (d + rest)[0] == d[0];
    }
  }

  lemma SignedForm(s: seq<byte>, n: nat, rest: seq<byte>)
    requires ParseNat(s) == Some((n, rest))
    ensures ParseInt([MINUS] + s) == Some((-(n as int), rest))
  {
    assert ([MINUS] + s)[1..] == s;
  }

  // ------------------------------------------------------------------------
  // Printing flat objects, and reading them back
  // ------------------------------------------------------------------------

  datatype Scalar = Text(text: seq<byte>) | Number(value: int)

  function ToJson(v: Scalar): Json {
    match v
    case Text(t) => JString(t)
    case Number(n) => JNumber(n)
  }

  function PrintScalar(v: Scalar): (p: seq<byte>)
    ensures p != [] && !IsSpace(p[0])
  {
    match v
    case Text(t) => Quoted(t)
    case Number(n) => Decimal(n)
  }

  /**
   The members from the given opening character (the brace or a comma) to the closing brace. The
   firmware's formats hold the names as plain literals.
   */
  function PrintMembers(opening: byte, ms: seq<(seq<byte>, Scalar)>): seq<byte>
    decreases |ms|
  {
    if ms == [] then [RBRACE]
    else NameLiteral(opening, ms[0].0) + PrintScalar(ms[0].1) + PrintMembers(COMMA, ms[1..])
  }

  function NameLiteral(opening: byte, name: seq<byte>): seq<byte> {
    [opening, QUOTE] + name + [QUOTE, COLON]
  }

  ghost predicate PlainNames(ms: seq<(seq<byte>, Scalar)>) {
    forall i :: 0 <= i < |ms| ==> Plain(ms[i].0)
  }

  function PrintObject(ms: seq<(seq<byte>, Scalar)>): seq<byte>
    requires ms != []
  {
    PrintMembers(LBRACE, ms)
  }

  lemma PrintFirst(opening: byte, name: seq<byte>, v: Scalar, ms: seq<(seq<byte>, Scalar)>, literal: seq<byte>)
    requires literal == NameLiteral(opening, name)
    ensures PrintMembers(opening, [(name, v)] + ms) == literal + PrintScalar(v) + PrintMembers(COMMA, ms)
  {
    assert ([(name, v)] + ms)[1..] == ms;
  }

  function Members(ms: seq<(seq<byte>, Scalar)>): (js: seq<(seq<byte>, Json)>)
    ensures |js| == |ms|
    ensures forall i :: 0 <= i < |ms| ==> js[i] == (ms[i].0, ToJson(ms[i].1))
  {
    seq(|ms|, i requires 0 <= i < |ms| => (ms[i].0, ToJson(ms[i].1)))
  }

  lemma {:induction false} StringValue(s: seq<byte>, t: seq<byte>, rest: seq<byte>)
    requires s != [] && s[0] == QUOTE && ParseStringBody(s[1..]) == Some((t, rest))
    ensures ParseValue(s) == Some((JString(t), rest))
  {
  }

  lemma {:induction false} QuotedBody(s: seq<byte>, t: seq<byte>, rest: seq<byte>)
    requires s == Quoted(t) + rest
    ensures s != [] && s[0] == QUOTE && ParseStringBody(s[1..]) == Some((t, rest))
  {
    EscapeRoundTrip(t, rest);
    assert s[1..] == Escape(t) + [QUOTE] + rest;
  }

  lemma {:induction false} NumberRoundTrip(n: int, rest: seq<byte>)
    requires EndsNumber(rest)
    ensures ParseValue(Decimal(n) + rest) == Some((JNumber(n), rest))
  {
    var s := Decimal(n) + rest;
    IntRoundTrip(n, rest);
    assert s[0] == Decimal(n)[0] && (s[0] == MINUS || IsDigit(s[0]));
  }

  lemma {:induction false} ScalarRoundTrip(v: Scalar, rest: seq<byte>)
    requires EndsNumber(rest)
    ensures ParseValue(PrintScalar(v) + rest) == Some((ToJson(v), rest))
  {
    match v
    case Text(t) =>
      QuotedBody(PrintScalar(v) + rest, t, rest);
      StringValue(PrintScalar(v) + rest, t, rest);
    case Number(n) => NumberRoundTrip(n, rest);
  }

  lemma {:induction false} MemberForm(s: seq<byte>, name: seq<byte>, value: seq<byte>, v: Json, rest: seq<byte>)
    requires s != [] && s[0] == QUOTE && ParseStringBody(s[1..]) == Some((name, [COLON] + value))
    requires value != [] && !IsSpace(value[0]) && ParseValue(value) == Some((v, rest))
    ensures ParseMember(s) == Some(((name, v), rest))
  {
    var colon := [COLON] + value;
    assert colon[1..] == value && SkipSpace(colon) == colon && SkipSpace(value) == value;
  }

  lemma Associate(a: seq<byte>, b: seq<byte>, c: seq<byte>)
    ensures a + b + c == a + (b + c)
  {
  }

  lemma {:induction false} Regroup(opening: byte, name: seq<byte>, p: seq<byte>, f: seq<byte>, rest: seq<byte>)
    requires Plain(name)
    ensures NameLiteral(opening, name) + p + f + rest == [opening] + (Quoted(name) + ([COLON] + (p + (f + rest))))
  {
    PlainTextIsKept(name);
    var q := Quoted(name);
    assert NameLiteral(opening, name) == [opening] + q + [COLON];
    Associate([opening] + q + [COLON] + p, f, rest);
    Associate([opening] + q + [COLON], p, f + rest);
    Associate([opening] + q, [COLON], p + (f + rest));
    Associate([opening], q, [COLON] + (p + (f + rest)));
  }

  lemma {:induction false} MemberParts(s: seq<byte>, name: seq<byte>, p: seq<byte>, v: Json, rest: seq<byte>)
    requires s == Quoted(name) + ([COLON] + (p + rest))
    requires p != [] && !IsSpace(p[0]) && ParseValue(p + rest) == Some((v, rest))
    ensures ParseMember(s) == Some(((name, v), rest))
  {
    QuotedBody(s, name, [COLON] + (p + rest));
    assert (p + rest)[0] == p[0];
    MemberForm(s, name, p + rest, v, rest);
  }

  lemma {:induction false} LastMemberForm(s: seq<byte>, m: (seq<byte>, Json), rest: seq<byte>)
    requires ParseMember(s) == Some((m, [RBRACE] + rest))
    ensures ParseMembers(s) == Some(([m], rest))
  {
    assert SkipSpace([RBRACE] + rest) == [RBRACE] + rest && ([RBRACE] + rest)[1..] == rest;
  }

  lemma {:induction false} MoreMembersForm(s: seq<byte>, m: (seq<byte>, Json), tail: seq<byte>,
        ms: seq<(seq<byte>, Json)>, rest: seq<byte>)
    requires ParseMember(s) == Some((m, [COMMA] + tail))
    requires tail != [] && !IsSpace(tail[0]) && ParseMembers(tail) == Some((ms, rest))
    ensures ParseMembers(s) == Some(([m] + ms, rest))
  {
    var after := [COMMA] + tail;
    assert SkipSpace(after) == after && after[1..] == tail && SkipSpace(tail) == tail;
  }

  /** The first member reads back behind its opening character, and leaves what follows it. */
  lemma {:induction false} FirstMember(opening: byte, name: seq<byte>, v: Scalar, tail: seq<byte>, rest: seq<byte>)
      returns (s: seq<byte>)
    requires Plain(name) && tail != [] && !IsDigit(tail[0])
    ensures NameLiteral(opening, name) + PrintScalar(v) + tail + rest == [opening] + s
    ensures s != [] && s[0] == QUOTE && ParseMember(s) == Some(((name, ToJson(v)), tail + rest))
  {
    s := Quoted(name) + ([COLON] + (PrintScalar(v) + (tail + rest)));
    Regroup(opening, name, PrintScalar(v), tail, rest);
    assert s[0] == QUOTE;
    assert EndsNumber(tail + rest);
    ScalarRoundTrip(v, tail + rest);
    MemberParts(s, name, PrintScalar(v), ToJson(v), tail + rest);
  }

  /** Behind its opening character, the printed text reads back as the members. */
  lemma {:induction false} MembersRoundTrip(opening: byte, ms: seq<(seq<byte>, Scalar)>, rest: seq<byte>)
      returns (s: seq<byte>)
    requires ms != [] && PlainNames(ms)
    ensures PrintMembers(opening, ms) + rest == [opening] + s
    ensures s != [] && s[0] == QUOTE && ParseMembers(s) == Some((Members(ms), rest))
    decreases |ms|
  {
    var (name, v) := ms[0];
    var tail := PrintMembers(COMMA, ms[1..]);
    s := FirstMember(opening, name, v, tail, rest);
    MembersNext(ms);
    if |ms| == 1 {
      LastMemberForm(s, (name, ToJson(v)), rest);
    } else {
      var t := MembersRoundTrip(COMMA, ms[1..], rest);
      MoreMembersForm(s, (name, ToJson(v)), t, Members(ms[1..]), rest);
    }
  }

  lemma MembersNext(ms: seq<(seq<byte>, Scalar)>)
    requires ms != []
    ensures Members(ms) == [(ms[0].0, ToJson(ms[0].1))] + Members(ms[1..])
    ensures |ms| == 1 ==> Members(ms) == [(ms[0].0, ToJson(ms[0].1))]
  {
  }

  lemma {:induction false} ObjectForm(s: seq<byte>, inner: seq<byte>, ms: seq<(seq<byte>, Json)>, rest: seq<byte>)
    requires s == [LBRACE] + inner
    requires inner != [] && inner[0] == QUOTE && ParseMembers(inner) == Some((ms, rest))
    ensures ParseValue(s) == Some((JObject(ms), rest))
  {
    assert s[1..] == inner && SkipSpace(inner) == inner;
  }

  /** A printed object reads back as the same names and values in the same order. */
  lemma {:induction false} ObjectRoundTrip(ms: seq<(seq<byte>, Scalar)>, rest: seq<byte>)
    requires ms != [] && PlainNames(ms)
    ensures ParseValue(PrintObject(ms) + rest) == Some((JObject(Members(ms)), rest))
  {
    var inner := MembersRoundTrip(LBRACE, ms, rest);
    ObjectForm([LBRACE] + inner, inner, Members(ms), rest);
  }
}
