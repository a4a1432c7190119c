/**
 The connection status document (main/wifi_manager.c): the name, three addresses and the reason the
 document was updated, printed into one fixed buffer.
 */
module StatusDocument {
  import opened Bytes
  import opened JsonString
  import opened JsonParser
  import opened Numerals
  import opened ApDocument
  import opened WifiConfig
  import opened WifiProtocol

  const JSON_IP_INFO_SIZE := 150

  /** An IPv4 address, most significant byte first. */
  type Address = a: seq<byte> | |a| == 4 witness [0, 0, 0, 0]

  const DOT: byte := 46

  /** ip4addr_ntoa. */
  function Dotted(a: Address): (t: seq<byte>) {
    Digits(a[0]) + [DOT] + Digits(a[1]) + [DOT] + Digits(a[2]) + [DOT] + Digits(a[3])
  }

  lemma {:induction false} DottedIsPlain(a: Address)
    ensures Plain(Dotted(a)) && |Dotted(a)| <= 15
  {
    assert PowerOfTen(3) == 1000;
    DigitsLength(a[0], 3);
    DigitsLength(a[1], 3);
    DigitsLength(a[2], 3);
    DigitsLength(a[3], 3);
  }

  datatype Addresses = Addresses(ip: Address, netmask: Address, gw: Address)

  /** Without a connection each address is printed as a zero. */
  function AddressText(connected: bool, a: Address): (t: seq<byte>) {
    if connected then Dotted(a) else [48]
  }

  function StatusFields(name: seq<byte>, a: Addresses, urc: nat): seq<(seq<byte>, Scalar)> {
    var up := urc == UPDATE_CONNECTION_OK;
    [(Ascii("ssid"), Text(name)), (Ascii("ip"), Text(AddressText(up, a.ip))),
     (Ascii("netmask"), Text(AddressText(up, a.netmask))), (Ascii("gw"), Text(AddressText(up, a.gw))),
     (Ascii("urc"), Number(urc))]
  }

  /** The format string with its arguments. */
  function Format(ip: seq<byte>, netmask: seq<byte>, gw: seq<byte>, urc: int): seq<byte> {
    Ascii(",\"ip\":\"") + ip + (Ascii("\",\"netmask\":\"") + netmask + (Ascii("\",\"gw\":\"") + gw +
    (Ascii("\",\"urc\":") + Decimal(urc) + Ascii("}\n"))))
  }

  function StatusText(name: seq<byte>, a: Addresses, urc: nat): seq<byte> {
    var up := urc == UPDATE_CONNECTION_OK;
    Ascii("{\"ssid\":") + Quoted(name) +
    Format(AddressText(up, a.ip), AddressText(up, a.netmask), AddressText(up, a.gw), urc)
  }

  // ------------------------------------------------------------------------
  // Round trip
  // ------------------------------------------------------------------------

  /** A text member inside the format: the quote before the name closes the member before. */
  lemma {:induction false} TextInFormat(before: seq<byte>, literal: seq<byte>, t: seq<byte>, m: seq<byte>)
    ensures before + literal + [QUOTE] + t + ([QUOTE] + m + [LF]) == before + (literal + ([QUOTE] + t + [QUOTE]) + m) + [LF]
  {
    Associate(before + literal + [QUOTE] + t, [QUOTE] + m, [LF]);
    Associate(before + literal + [QUOTE] + t, [QUOTE], m);
    assert before + literal + [QUOTE] + t + [QUOTE] == before + (literal + ([QUOTE] + t + [QUOTE]));
    Associate(before, literal + ([QUOTE] + t + [QUOTE]), m);
  }

  lemma {:induction false} PlainText(t: seq<byte>)
    requires Plain(t)
    ensures PrintScalar(Text(t)) == [QUOTE] + t + [QUOTE]
  {
    PlainTextIsKept(t);
  }

  lemma {:induction false} FormatIsMembers(l: seq<seq<byte>>, t: seq<seq<byte>>, end: seq<byte>, d: seq<byte>)
    requires |l| == 4 && |t| == 3
    requires end == [QUOTE] + (l[3] + d + [RBRACE]) + [LF]
    ensures l[0] + [QUOTE] + t[0] + ([QUOTE] + l[1] + [QUOTE] + t[1] + ([QUOTE] + l[2] + [QUOTE] + t[2] + end))
         == l[0] + ([QUOTE] + t[0] + [QUOTE]) + (l[1] + ([QUOTE] + t[1] + [QUOTE]) + (l[2] + ([QUOTE] + t[2] + [QUOTE])
            + (l[3] + d + [RBRACE]))) + [LF]
  {
    var m3 := l[3] + d + [RBRACE];
    TextInFormat([QUOTE], l[2], t[2], m3);
    var m2 := l[2] + ([QUOTE] + t[2] + [QUOTE]) + m3;
    TextInFormat([QUOTE], l[1], t[1], m2);
    var m1 := l[1] + ([QUOTE] + t[1] + [QUOTE]) + m2;
    TextInFormat([], l[0], t[0], m1);
    var m0 := l[0] + ([QUOTE] + t[0] + [QUOTE]) + m1;
    assert [] + l[0] == l[0] && [] + m0 == m0;
  }

  /** Four members behind the first one: three plain texts and a number. */
  lemma {:induction false} MembersOfFormat(l: seq<seq<byte>>, n: seq<seq<byte>>, t: seq<seq<byte>>, urc: int)
      returns (ms: seq<(seq<byte>, Scalar)>)
    requires |l| == |n| == 4 && |t| == 3
    requires forall i :: 0 <= i < 4 ==> l[i] == NameLiteral(COMMA, n[i])
    requires Plain(t[0]) && Plain(t[1]) && Plain(t[2])
    ensures ms == [(n[0], Text(t[0])), (n[1], Text(t[1])), (n[2], Text(t[2])), (n[3], Number(urc))]
    ensures PrintMembers(COMMA, ms)
         == l[0] + ([QUOTE] + t[0] + [QUOTE]) + (l[1] + ([QUOTE] + t[1] + [QUOTE]) + (l[2] + ([QUOTE] + t[2] + [QUOTE])
            + (l[3] + Decimal(urc) + [RBRACE])))
  {
    PlainText(t[0]);
    PlainText(t[1]);
    PlainText(t[2]);
    var m3 := [(n[3], Number(urc))] + [];
    var m2 := [(n[2], Text(t[2]))] + m3;
    var m1 := [(n[1], Text(t[1]))] + m2;
    PrintFirst(COMMA, n[3], Number(urc), [], l[3]);
    PrintFirst(COMMA, n[2], Text(t[2]), m3, l[2]);
    PrintFirst(COMMA, n[1], Text(t[1]), m2, l[1]);
    PrintFirst(COMMA, n[0], Text(t[0]), m1, l[0]);
    ms := [(n[0], Text(t[0]))] + m1;
  }

  lemma LiteralsOfFormat()
    ensures Ascii("{\"ssid\":") == NameLiteral(LBRACE, Ascii("ssid"))
    ensures Ascii(",\"ip\":\"") == NameLiteral(COMMA, Ascii("ip")) + [QUOTE]
    ensures Ascii("\",\"netmask\":\"") == [QUOTE] + NameLiteral(COMMA, Ascii("netmask")) + [QUOTE]
    ensures Ascii("\",\"gw\":\"") == [QUOTE] + NameLiteral(COMMA, Ascii("gw")) + [QUOTE]
    ensures Ascii("\",\"urc\":") == [QUOTE] + NameLiteral(COMMA, Ascii("urc"))
    ensures Ascii("}\n") == [RBRACE] + [LF]
  {
  }

  lemma EndOfFormat(l: seq<byte>, d: seq<byte>)
    ensures [QUOTE] + l + d + ([RBRACE] + [LF]) == [QUOTE] + (l + d + [RBRACE]) + [LF]
  {
  }

  lemma {:induction false} FormatText(ip: seq<byte>, netmask: seq<byte>, gw: seq<byte>, urc: int)
      returns (ms: seq<(seq<byte>, Scalar)>)
    requires Plain(ip) && Plain(netmask) && Plain(gw)
    ensures ms == [(Ascii("ip"), Text(ip)), (Ascii("netmask"), Text(netmask)), (Ascii("gw"), Text(gw)), (Ascii("urc"), Number(urc))]
    ensures Format(ip, netmask, gw, urc) == PrintMembers(COMMA, ms) + [LF]
  {
    LiteralsOfFormat();
    var n := [Ascii("ip"), Ascii("netmask"), Ascii("gw"), Ascii("urc")];
    var l := [NameLiteral(COMMA, n[0]), NameLiteral(COMMA, n[1]), NameLiteral(COMMA, n[2]), NameLiteral(COMMA, n[3])];
    EndOfFormat(l[3], Decimal(urc));
    ms := MembersOfFormat(l, n, [ip, netmask, gw], urc);
    FormatIsMembers(l, [ip, netmask, gw], [QUOTE] + l[3] + Decimal(urc) + ([RBRACE] + [LF]), Decimal(urc));
  }

  lemma {:induction false} AddressIsPlain(connected: bool, a: Address)
    ensures Plain(AddressText(connected, a)) && |AddressText(connected, a)| <= 15
  {
    DottedIsPlain(a);
  }

  lemma {:induction false} StatusIsObject(name: seq<byte>, a: Addresses, urc: nat)
    ensures StatusText(name, a, urc) == PrintObject(StatusFields(name, a, urc)) + [LF]
  {
    var up := urc == UPDATE_CONNECTION_OK;
    AddressIsPlain(up, a.ip);
    AddressIsPlain(up, a.netmask);
    AddressIsPlain(up, a.gw);
    var ms := FormatText(AddressText(up, a.ip), AddressText(up, a.netmask), AddressText(up, a.gw), urc);
    LiteralsOfFormat();
    PrintFirst(LBRACE, Ascii("ssid"), Text(name), ms, Ascii("{\"ssid\":"));
    assert StatusFields(name, a, urc) == [(Ascii("ssid"), Text(name))] + ms;
    Associate(Ascii("{\"ssid\":") + Quoted(name), PrintMembers(COMMA, ms), [LF]);
  }

  lemma {:induction false} StatusNamesArePlain(name: seq<byte>, a: Addresses, urc: nat)
    ensures PlainNames(StatusFields(name, a, urc))
  {
    StatusNames();
  }

  lemma StatusNames()
    ensures Plain(Ascii("ssid")) && Plain(Ascii("ip")) && Plain(Ascii("netmask")) && Plain(Ascii("gw"))
    ensures Plain(Ascii("urc"))
  {
    ShortNames();
    LongNames();
  }

  lemma ShortNames()
    ensures Plain(Ascii("ip")) && Plain(Ascii("gw")) && Plain(Ascii("urc"))
  {
  }

  lemma LongNames()
    ensures Plain(Ascii("ssid")) && Plain(Ascii("netmask"))
  {
  }

  lemma {:induction false} TextForm(s: seq<byte>, value: Json)
    requires s != [] && !IsSpace(s[0]) && ParseValue(s) == Some((value, [LF]))
    ensures Parse(s) == Some(value)
  {
    assert SkipSpace([LF]) == SkipSpace([]);
  }

  /** What a client is to read of a report: addresses only with code 0. */
  function StatusObject(name: seq<byte>, a: Addresses, urc: nat): Json {
    var zero := Ascii("0");
    JObject([(Ascii("ssid"), JString(name)),
             (Ascii("ip"), JString(if urc == 0 then Dotted(a.ip) else zero)),
             (Ascii("netmask"), JString(if urc == 0 then Dotted(a.netmask) else zero)),
             (Ascii("gw"), JString(if urc == 0 then Dotted(a.gw) else zero)),
             (Ascii("urc"), JNumber(urc))])
  }

  lemma ObjectOfFields(name: seq<byte>, a: Addresses, urc: nat)
    ensures JObject(Members(StatusFields(name, a, urc))) == StatusObject(name, a, urc)
  {
    assert Ascii("0") == [48];
    var ms := Members(StatusFields(name, a, urc));
    assert ms == [ms[0], ms[1], ms[2], ms[3], ms[4]];
  }

  /** Reading the status document returns the name, the addresses and the reason code. */
  lemma {:induction false} StatusRoundTrip(name: seq<byte>, a: Addresses, urc: nat)
    ensures Parse(StatusText(name, a, urc)) == Some(StatusObject(name, a, urc))
  {
    ObjectOfFields(name, a, urc);
    StatusNamesArePlain(name, a, urc);
    StatusIsObject(name, a, urc);
    ObjectRoundTrip(StatusFields(name, a, urc), [LF]);
    TextForm(StatusText(name, a, urc), JObject(Members(StatusFields(name, a, urc))));
  }

  // ------------------------------------------------------------------------
  // Dotted addresses are read back
  // ------------------------------------------------------------------------

  /** So many numbers with points between them. */
  function ReadDotted(t: seq<byte>, n: nat): Option<seq<nat>>
    decreases n
  {
    match ParseNat(t)
    case None => None
    case Some((v, rest)) =>
      if n == 1 then (if rest == [] then Some([v]) else None)
      else if n == 0 || rest == [] || rest[0] != '.' as int then None
      else match ReadDotted(rest[1..], n - 1)
        case None => None
        case Some(vs) => Some([v] + vs)
  }

  lemma {:induction false} DottedStep(v: nat, t: seq<byte>, n: nat, vs: seq<nat>)
    requires n > 0 && ReadDotted(t, n) == Some(vs)
    ensures ReadDotted(Digits(v) + ([DOT] + t), n + 1) == Some([v] + vs)
  {
    NatRoundTrip(v, [DOT] + t);
    assert ([DOT] + t)[1..] == t;
  }

  lemma {:induction false} DottedLast(v: nat)
    ensures ReadDotted(Digits(v), 1) == Some([v])
  {
    NatRoundTrip(v, []);
    assert Digits(v) + [] == Digits(v);
  }

  lemma DottedShape(a: seq<byte>, b: seq<byte>, c: seq<byte>, d: seq<byte>)
    ensures a + [DOT] + b + [DOT] + c + [DOT] + d == a + ([DOT] + (b + ([DOT] + (c + ([DOT] + d)))))
  {
  }

  lemma {:induction false} DottedNumbers(v0: nat, v1: nat, v2: nat, v3: nat)
    ensures ReadDotted(Digits(v0) + ([DOT] + (Digits(v1) + ([DOT] + (Digits(v2) + ([DOT] + Digits(v3)))))), 4)
         == Some([v0, v1, v2, v3])
  {
    DottedLast(v3);
    DottedStep(v2, Digits(v3), 1, [v3]);
    DottedStep(v1, Digits(v2) + ([DOT] + Digits(v3)), 2, [v2] + [v3]);
    DottedStep(v0, Digits(v1) + ([DOT] + (Digits(v2) + ([DOT] + Digits(v3)))), 3, [v1] + ([v2] + [v3]));
    assert [v0] + ([v1] + ([v2] + [v3])) == [v0, v1, v2, v3];
  }

  /** Four numbers below 256, in their order. */
  lemma {:induction false} DottedRoundTrip(a: Address)
    ensures ReadDotted(Dotted(a), 4) == Some([a[0], a[1], a[2], a[3]])
  {
    DottedShape(Digits(a[0]), Digits(a[1]), Digits(a[2]), Digits(a[3]));
    DottedNumbers(a[0], a[1], a[2], a[3]);
  }

  /** The text served for a status of the connection manager, at the addresses it has. */
  function Served(status: Status, a: Addresses): seq<byte> {
    match status
    case Cleared => Ascii("{}\n")
    case Report(name, urc) => StatusText(name, a, urc)
  }

  lemma {:induction false} EmptyObject()
    ensures Parse(Ascii("{}\n")) == Some(JObject([]))
  {
    assert Ascii("{}\n") == [LBRACE, RBRACE, LF];
    EmptyForm([LBRACE, RBRACE, LF]);
  }

  lemma {:induction false} EmptyForm(s: seq<byte>)
    requires s == [LBRACE, RBRACE, LF]
    ensures Parse(s) == Some(JObject([]))
  {
    assert s[1..] == [RBRACE, LF] && SkipSpace(s[1..]) == s[1..] && s[1..][1..] == [LF];
    TextForm(s, JObject([]));
  }

  /** What a client is to read: an empty object exactly while there is no report, and otherwise the report. */
  function Document(status: Status, a: Addresses): Json {
    match status
    case Cleared => JObject([])
    case Report(name, urc) => StatusObject(name, a, urc)
  }

  lemma {:induction false} ClientReadsStatus(status: Status, a: Addresses)
    ensures Parse(Served(status, a)) == Some(Document(status, a))
  {
    match status
    case Cleared => EmptyObject();
    case Report(name, urc) => StatusRoundTrip(name, a, urc);
  }

  /** Two statuses served alike are the same status. */
  lemma {:induction false} ServedIsInjective(s: Status, t: Status, a: Addresses, b: Addresses)
    requires Served(s, a) == Served(t, b)
    ensures s == t
  {
    ClientReadsStatus(s, a);
    ClientReadsStatus(t, b);
    DocumentIsInjective(s, t, a, b);
  }

  lemma DocumentIsInjective(s: Status, t: Status, a: Addresses, b: Addresses)
    requires Document(s, a) == Document(t, b)
    ensures s == t
  {
    var ms, ns := Document(s, a).members, Document(t, b).members;
    if s.Report? && t.Report? {
      assert ms[0] == ns[0] && ms[4] == ns[4];
    } else {
      assert |ms| == |ns|;
    }
  }

  // ------------------------------------------------------------------------
  // Size, and the printer
  // ------------------------------------------------------------------------

  /**
   Exactly when the document of a config fits its buffer: what counts is the name printed, which runs on
   into the password where the SSID fills its field.
   */
  lemma {:induction false} StatusFitsIff(c: Config, a: Addresses, urc: nat)
    requires urc < 10
    ensures var up := urc == UPDATE_CONNECTION_OK;
            var size := 49 + |Escape(PrintedName(c))| + |AddressText(up, a.ip)| + |AddressText(up, a.netmask)|
                        + |AddressText(up, a.gw)|;
            && |StatusText(PrintedName(c), a, urc)| == size
            && (|StatusText(PrintedName(c), a, urc)| < 150 <==> size < 150)
    ensures |Escape(PrintedName(c))| <= 55 ==> |StatusText(PrintedName(c), a, urc)| < 150
  {
    var up := urc == UPDATE_CONNECTION_OK;
    AddressIsPlain(up, a.ip);
    AddressIsPlain(up, a.netmask);
    AddressIsPlain(up, a.gw);
    assert Decimal(urc) == [48 + urc];
  }

  /** An SSID of 32 quotes without a password and addresses of twelve digits each make 158 bytes. */
  lemma {:induction false} QuotedStatusDoesNotFit(a: Addresses)
    requires |Dotted(a.ip)| == |Dotted(a.netmask)| == |Dotted(a.gw)| == 15
    ensures |StatusText(PrintedName(Config(Quotes(32), [])), a, UPDATE_CONNECTION_OK)| == 158 > 150
  {
    var c := Config(Quotes(32), []);
    StatusFitsIff(c, a, UPDATE_CONNECTION_OK);
    NamesSsidIff(c);
    QuotesEscaped(Quotes(32));
  }

  /** A plain SSID of 32 bytes and a plain password of 63 make 189 bytes with such addresses. */
  lemma {:induction false} FullSsidDoesNotFit(c: Config, a: Addresses)
    requires |c.ssid| == MAX_SSID_SIZE && |c.password| == 63 && Plain(c.ssid) && Plain(c.password)
    requires |Dotted(a.ip)| == |Dotted(a.netmask)| == |Dotted(a.gw)| == 15
    ensures |StatusText(PrintedName(c), a, UPDATE_CONNECTION_OK)| == 189 > 150
  {
    StatusFitsIff(c, a, UPDATE_CONNECTION_OK);
    PlainTextIsKept(PrintedName(c));
  }

  /** 192.168.100.100 is such an address. */
  lemma LongAddressExists()
    ensures |Dotted([192, 168, 100, 100])| == 15
  {
    assert |Digits(192)| == 3 && |Digits(168)| == 3 && |Digits(100)| == 3;
  }

  lemma {:induction false} FormatIsNulFree(ip: seq<byte>, netmask: seq<byte>, gw: seq<byte>, urc: int)
    requires NulFree(ip) && NulFree(netmask) && NulFree(gw)
    ensures NulFree(Format(ip, netmask, gw, urc))
  {
    DecimalIsNulFree(urc);
    FormatLiteralsAreNulFree();
    NulFreeParts(Ascii("\",\"urc\":"), Decimal(urc), Ascii("}\n"));
    var t4 := Ascii("\",\"urc\":") + Decimal(urc) + Ascii("}\n");
    NulFreeParts(Ascii("\",\"gw\":\""), gw, t4);
    var t3 := Ascii("\",\"gw\":\"") + gw + t4;
    NulFreeParts(Ascii("\",\"netmask\":\""), netmask, t3);
    NulFreeParts(Ascii(",\"ip\":\""), ip, Ascii("\",\"netmask\":\"") + netmask + t3);
  }

  lemma NulFreeParts(a: seq<byte>, b: seq<byte>, c: seq<byte>)
    requires NulFree(a) && NulFree(b) && NulFree(c)
    ensures NulFree(a + b + c)
  {
  }

  lemma FormatLiteralsAreNulFree()
    ensures NulFree(Ascii(",\"ip\":\"")) && NulFree(Ascii("\",\"netmask\":\"")) && NulFree(Ascii("\",\"gw\":\""))
    ensures NulFree(Ascii("\",\"urc\":")) && NulFree(Ascii("}\n"))
  {
  }

  /**
   wifi_manager_generate_ip_info_json, with what tcpip_adapter_get_ip_info reports; false if it writes
   beyond the buffer.
   */
  method GenerateIpInfoJson(buf: array<byte>, config: Config, a: Addresses, urc: nat) returns (inBounds: bool)
    requires Fits(config) && buf.Length == 150 && urc < 10
    modifies buf
    ensures inBounds == (|StatusText(PrintedName(config), a, urc)| < 150)
    ensures inBounds ==> Holds(buf, StatusText(PrintedName(config), a, urc))
  {
    LiteralsAreNulFree();
    PrintedNameIsRead(config);
    var opening := Ascii("{\"ssid\":");
    StrCpy(buf, 0, opening);
    inBounds := StrCatQuoted(buf, opening, StaBytes(config));
    if !inBounds { return; }
    ghost var t := opening + Quoted(PrintedName(config));
    var format;
    if urc == UPDATE_CONNECTION_OK {
      format := Format(Dotted(a.ip), Dotted(a.netmask), Dotted(a.gw), urc);
    } else {
      format := Format([48], [48], [48], urc);
    }
    FormatOfStatus(a, urc, format);
    inBounds := StrCat(buf, t, Snprintf(JSON_IP_INFO_SIZE, format));
  }

  /** The formatted text is never cut short, and holds no NUL. */
  lemma FormatOfStatus(a: Addresses, urc: nat, format: seq<byte>)
    requires urc < 10
    requires var up := urc == UPDATE_CONNECTION_OK;
             format == Format(AddressText(up, a.ip), AddressText(up, a.netmask), AddressText(up, a.gw), urc)
    ensures NulFree(format) && Snprintf(JSON_IP_INFO_SIZE, format) == format
  {
    var up := urc == UPDATE_CONNECTION_OK;
    AddressIsPlain(up, a.ip);
    AddressIsPlain(up, a.netmask);
    AddressIsPlain(up, a.gw);
    assert Decimal(urc) == [48 + urc];
    FormatIsNulFree(AddressText(up, a.ip), AddressText(up, a.netmask), AddressText(up, a.gw), urc);
  }
}
