/**
 The access-point list the WiFi manager publishes (main/wifi_manager.c), printed with strcat and
 snprintf into a fixed buffer, and read back by the reference JSON parser.
 */
module ApDocument {
  import opened Bytes
  import opened ApFilter
  import opened JsonString
  import opened JsonParser
  import opened Numerals

  const MAX_AP_NUM := 15
  const JSON_ONE_APP_SIZE := 99

  // ------------------------------------------------------------------------
  // C strings in a buffer
  // ------------------------------------------------------------------------

  /** The buffer holds this text and its NUL. */
  ghost predicate Holds(buf: array<byte>, t: seq<byte>)
    reads buf
  {
    && NulFree(t) && |t| < buf.Length
    && (forall k :: 0 <= k < |t| ==> buf[k] == t[k])
    && buf[|t|] == 0
  }

  method StrLen(buf: array<byte>, ghost t: seq<byte>) returns (n: nat)
    requires Holds(buf, t)
    ensures n == |t|
  {
    n := 0;
    while buf[n] != 0
      invariant n <= |t|
      decreases |t| - n
    {
      n := n + 1;
    }
  }

  method StrCpy(buf: array<byte>, at: nat, s: seq<byte>)
    requires at + |s| < buf.Length
    modifies buf
    ensures forall k :: at <= k < at + |s| ==> buf[k] == s[k - at]
    ensures buf[at + |s|] == 0
    ensures forall k :: 0 <= k < at ==> buf[k] == old(buf[k])
  {
    for i := 0 to |s|
      invariant forall k :: at <= k < at + i ==> buf[k] == s[k - at]
      invariant forall k :: 0 <= k < at ==> buf[k] == old(buf[k])
    {
      buf[at + i] := s[i];
    }
    buf[at + |s|] := 0;
  }

  /** strcat; false if it writes beyond the buffer. */
  method StrCat(buf: array<byte>, ghost t: seq<byte>, s: seq<byte>) returns (inBounds: bool)
    requires Holds(buf, t) && NulFree(s)
    modifies buf
    ensures inBounds == (|t| + |s| < buf.Length)
    ensures inBounds ==> Holds(buf, t + s)
  {
    var n := StrLen(buf, t);
    if n + |s| >= buf.Length {
      return false;
    }
    StrCpy(buf, n, s);
    inBounds := true;
  }

  lemma {:induction false} QuotedIsNulFree(t: seq<byte>)
    ensures NulFree(Quoted(t))
  {
    EscapeHasNoControls(t);
  }

  /** The SSID is printed in place, behind what the buffer holds; it is read up to its first NUL. */
  method StrCatQuoted(buf: array<byte>, ghost t: seq<byte>, input: seq<byte>) returns (inBounds: bool)
    requires Holds(buf, t) && |CStr(input)| < |input|
    modifies buf
    ensures inBounds == (|t| + |Quoted(CStr(input))| < buf.Length)
    ensures inBounds ==> Holds(buf, t + Quoted(CStr(input)))
  {
    var n := StrLen(buf, t);
    if n + |Quoted(CStr(input))| >= buf.Length {
      return false;
    }
    inBounds := JsonPrintString(Some(input), buf, n);
    QuotedIsNulFree(CStr(input));
  }

  /** What snprintf stores: at most size - 1 bytes. */
  function Snprintf(size: nat, full: seq<byte>): seq<byte>
    requires size > 0
  {
    if |full| < size then full else full[..size - 1]
  }

  // ------------------------------------------------------------------------
  // The list of access points
  // ------------------------------------------------------------------------

  /** The members of one entry, as the document format has them. */
  function Fields(r: ApRecord): seq<(seq<byte>, Scalar)> {
    [(Ascii("ssid"), Text(r.ssid)), (Ascii("chan"), Number(r.primary)),
     (Ascii("rssi"), Number(r.rssi)), (Ascii("auth"), Number(r.authmode))]
  }

  function Separator(last: bool): byte {
    if last then RBRACKET else COMMA
  }

  function RecordFields(r: ApRecord): seq<byte> {
    Ascii(",\"chan\":") + Decimal(r.primary) + (Ascii(",\"rssi\":") + Decimal(r.rssi) +
    (Ascii(",\"auth\":") + Decimal(r.authmode) + Ascii("}")))
  }

  /** The format string applied to one record: everything behind its SSID. */
  function RecordTail(r: ApRecord, last: bool): seq<byte> {
    RecordFields(r) + [Separator(last), LF]
  }

  function RecordText(r: ApRecord, last: bool): seq<byte> {
    Ascii("{\"ssid\":") + Quoted(r.ssid) + RecordTail(r, last)
  }

  function Texts(rs: seq<ApRecord>): (ts: seq<seq<byte>>)
    ensures |ts| == |rs|
  {
    seq(|rs|, i requires 0 <= i < |rs| => RecordText(rs[i], i == |rs| - 1))
  }

  lemma TextAt(rs: seq<ApRecord>, i: nat)
    requires i < |rs|
    ensures Texts(rs)[i] == RecordText(rs[i], i == |rs| - 1)
  {
  }

  /** The texts from the one at i on. */
  function JoinFrom(ts: seq<seq<byte>>, i: nat): seq<byte>
    requires i <= |ts|
    decreases |ts| - i
  {
    if i == |ts| then [] else ts[i] + JoinFrom(ts, i + 1)
  }

  function Records(rs: seq<ApRecord>): seq<byte> {
    JoinFrom(Texts(rs), 0)
  }

  /** The whole document; without records it is never closed. */
  function ApText(rs: seq<ApRecord>): seq<byte> {
    [LBRACKET] + Records(rs)
  }

  /** The fields are C ints when they reach the format. */
  predicate InRange(r: ApRecord) {
    var m := 0x8000_0000;
    -m <= r.primary < m && -m <= r.rssi < m && -m <= r.authmode < m
  }

  /** The SSID is a text. */
  ghost predicate Printable(r: ApRecord) {
    InRange(r) && NulFree(r.ssid)
  }

  lemma IntLength(n: int)
    requires -0x8000_0000 <= n < 0x8000_0000
    ensures |Decimal(n)| <= 11
  {
    assert PowerOfTen(10) == 10_000_000_000 by {
      assert PowerOfTen(5) == 100_000;
    }
    DigitsLength(if n < 0 then -n else n, 10);
  }

  lemma {:induction false} DecimalIsNulFree(n: int)
    ensures NulFree(Decimal(n))
  {
  }

  lemma NulFreeAppend(a: seq<byte>, b: seq<byte>)
    requires NulFree(a) && NulFree(b)
    ensures NulFree(a + b)
  {
  }

  lemma LiteralsAreNulFree()
    ensures NulFree(Ascii("{\"ssid\":")) && NulFree(Ascii(",\"chan\":")) && NulFree(Ascii(",\"rssi\":"))
    ensures NulFree(Ascii(",\"auth\":")) && NulFree(Ascii("}"))
  {
  }

  lemma {:induction false} TailIsNulFree(r: ApRecord, last: bool)
    ensures NulFree(RecordTail(r, last))
  {
    LiteralsAreNulFree();
    DecimalIsNulFree(r.primary);
    DecimalIsNulFree(r.rssi);
    DecimalIsNulFree(r.authmode);
    var t3 := Ascii(",\"auth\":") + Decimal(r.authmode);
    NulFreeAppend(t3, Ascii("}"));
    var t2 := Ascii(",\"rssi\":") + Decimal(r.rssi);
    NulFreeAppend(t2, t3 + Ascii("}"));
    var t1 := Ascii(",\"chan\":") + Decimal(r.primary);
    NulFreeAppend(t1, t2 + (t3 + Ascii("}")));
    NulFreeAppend(RecordFields(r), [Separator(last), LF]);
  }

  /** No entry is cut short by its 99-byte buffer. */
  lemma {:induction false} TailFitsItsBuffer(r: ApRecord, last: bool)
    requires InRange(r)
    ensures Snprintf(JSON_ONE_APP_SIZE, RecordTail(r, last)) == RecordTail(r, last)
  {
    IntLength(r.primary);
    IntLength(r.rssi);
    IntLength(r.authmode);
    assert |RecordTail(r, last)| == 27 + |Decimal(r.primary)| + |Decimal(r.rssi)| + |Decimal(r.authmode)|;
  }

  /** The texts before the one at i. */
  function JoinTo(ts: seq<seq<byte>>, i: nat): seq<byte>
    requires i <= |ts|
  {
    if i == 0 then [] else JoinTo(ts, i - 1) + ts[i - 1]
  }

  lemma {:induction false} JoinedThenRest(ts: seq<seq<byte>>, i: nat)
    requires i <= |ts|
    ensures JoinTo(ts, i) + JoinFrom(ts, i) == JoinFrom(ts, 0)
  {
    if i > 0 {
      JoinedThenRest(ts, i - 1);
      Associate(JoinTo(ts, i - 1), ts[i - 1], JoinFrom(ts, i));
    } else {
      assert [] + JoinFrom(ts, 0) == JoinFrom(ts, 0);
    }
  }

  lemma JoinedAll(ts: seq<seq<byte>>)
    ensures JoinTo(ts, |ts|) == JoinFrom(ts, 0)
  {
    JoinedThenRest(ts, |ts|);
    assert JoinTo(ts, |ts|) + [] == JoinTo(ts, |ts|);
  }

  lemma {:induction false} JoinedNext(ts: seq<seq<byte>>, i: nat, start: seq<byte>)
    requires i < |ts|
    ensures start + JoinTo(ts, i) + ts[i] == start + JoinTo(ts, i + 1)
    ensures |start + JoinTo(ts, i)| + |ts[i]| <= |start| + |JoinFrom(ts, 0)|
  {
    JoinedThenRest(ts, i + 1);
    Associate(start, JoinTo(ts, i), ts[i]);
  }

  /** wifi_manager_generate_acess_points_json; false if it writes beyond the buffer. */
  method GenerateAccessPointsJson(buf: array<byte>, records: array<ApRecord>, apNum: nat) returns (inBounds: bool)
    requires apNum <= records.Length && buf.Length >= 2
    requires forall i :: 0 <= i < apNum ==> Printable(records[i])
    modifies buf
    ensures inBounds == (|ApText(old(records[..apNum]))| < buf.Length)
    ensures inBounds ==> Holds(buf, ApText(old(records[..apNum])))
  {
    StrCpy(buf, 0, [LBRACKET]);
    ghost var ts := Texts(records[..apNum]);
    ghost var parts := PartsOf([LBRACKET], ts);
    inBounds := PrintRecords(buf, parts, records[..apNum], ts, [LBRACKET] + JoinFrom(ts, 0));
  }

  /** One text leads from one part to the next, which is no longer than the whole. */
  ghost predicate PartAt(parts: seq<seq<byte>>, ts: seq<seq<byte>>, whole: seq<byte>, i: nat) {
    i < |ts| && i + 1 < |parts| ==> parts[i + 1] == parts[i] + ts[i] && |parts[i + 1]| <= |whole|
  }

  /** The document after each of its records, up to the whole. */
  ghost predicate Parts(parts: seq<seq<byte>>, ts: seq<seq<byte>>, whole: seq<byte>) {
    |parts| == |ts| + 1 && parts[|ts|] == whole && forall i: nat :: PartAt(parts, ts, whole, i)
  }

  lemma PartsOf(start: seq<byte>, ts: seq<seq<byte>>) returns (parts: seq<seq<byte>>)
    ensures Parts(parts, ts, start + JoinFrom(ts, 0)) && parts[0] == start
  {
    parts := seq(|ts| + 1, i requires 0 <= i <= |ts| => start + JoinTo(ts, i));
    assert start + JoinTo(ts, 0) == start;
    JoinedAll(ts);
    forall i: nat ensures PartAt(parts, ts, start + JoinFrom(ts, 0), i) {
      if i < |ts| {
        JoinedNext(ts, i, start);
      }
    }
  }

  /** The loop over the records. */
  method PrintRecords(buf: array<byte>, ghost parts: seq<seq<byte>>, rs: seq<ApRecord>, ghost ts: seq<seq<byte>>,
                      ghost whole: seq<byte>)
    returns (inBounds: bool)
    requires forall i :: 0 <= i < |rs| ==> Printable(rs[i])
    requires ts == Texts(rs) && Parts(parts, ts, whole) && Holds(buf, parts[0])
    modifies buf
    ensures inBounds == (|whole| < buf.Length)
    ensures inBounds ==> Holds(buf, whole)
  {
    for i := 0 to |rs|
      invariant Holds(buf, parts[i])
    {
      assert PartAt(parts, ts, whole, i);
      TextAt(rs, i);
      inBounds := AppendRecord(buf, parts[i], rs[i], i == |rs| - 1, ts[i]);
      if !inBounds {
        return;
      }
    }
    inBounds := true;
  }

  method AppendRecord(buf: array<byte>, ghost t: seq<byte>, ap: ApRecord, last: bool, ghost text: seq<byte>)
    returns (inBounds: bool)
    requires Holds(buf, t) && InRange(ap) && NulFree(ap.ssid)
    requires text == RecordText(ap, last)
    modifies buf
    ensures inBounds == (|t| + |text| < buf.Length)
    ensures inBounds ==> Holds(buf, t + text)
  {
    TailFitsItsBuffer(ap, last);
    TailIsNulFree(ap, last);
    LiteralsAreNulFree();
    var opening := Ascii("{\"ssid\":");
    var oneAp := Snprintf(JSON_ONE_APP_SIZE, RecordTail(ap, last));
    inBounds := StrCat(buf, t, opening);
    if !inBounds { return; }
    CStrStops(ap.ssid, [NUL]);
    inBounds := StrCatQuoted(buf, t + opening, ap.ssid + [NUL]);
    if !inBounds { return; }
    inBounds := StrCat(buf, t + opening + Quoted(ap.ssid), oneAp);
    Associate(t + opening, Quoted(ap.ssid), oneAp);
    Associate(t, opening, Quoted(ap.ssid) + oneAp);
    Associate(opening, Quoted(ap.ssid), oneAp);
  }

  // ------------------------------------------------------------------------
  // Size
  // ------------------------------------------------------------------------

  function RecordSize(r: ApRecord): nat {
    37 + |Escape(r.ssid)| + |Decimal(r.primary)| + |Decimal(r.rssi)| + |Decimal(r.authmode)|
  }

  function Sizes(rs: seq<ApRecord>): (ns: seq<nat>)
    ensures |ns| == |rs|
  {
    seq(|rs|, i requires 0 <= i < |rs| => RecordSize(rs[i]))
  }

  function SumFrom(ns: seq<nat>, i: nat): nat
    requires i <= |ns|
    decreases |ns| - i
  {
    if i == |ns| then 0 else ns[i] + SumFrom(ns, i + 1)
  }

  /** What all the records take. */
  function TotalSize(rs: seq<ApRecord>): nat {
    SumFrom(Sizes(rs), 0)
  }

  lemma RecordTextSize(r: ApRecord, last: bool)
    ensures |RecordText(r, last)| == RecordSize(r)
  {
  }

  lemma {:induction false} JoinLength(ts: seq<seq<byte>>, ns: seq<nat>, i: nat)
    requires i <= |ts| == |ns| && forall k :: 0 <= k < |ts| ==> |ts[k]| == ns[k]
    ensures |JoinFrom(ts, i)| == SumFrom(ns, i)
    decreases |ts| - i
  {
    if i < |ts| {
      JoinLength(ts, ns, i + 1);
    }
  }

  lemma {:induction false} SumAtMost(ns: seq<nat>, i: nat, high: nat)
    requires i <= |ns| && forall k :: 0 <= k < |ns| ==> ns[k] <= high
    ensures SumFrom(ns, i) <= high * (|ns| - i)
    decreases |ns| - i
  {
    if i < |ns| {
      SumAtMost(ns, i + 1, high);
      assert high * (|ns| - i) == high * (|ns| - (i + 1)) + high;
    }
  }

  /** The exact length of the document. */
  lemma {:induction false} DocumentSize(rs: seq<ApRecord>)
    ensures |ApText(rs)| == 1 + TotalSize(rs)
  {
    var ts, ns := Texts(rs), Sizes(rs);
    forall k | 0 <= k < |rs| ensures |ts[k]| == ns[k] {
      TextAt(rs, k);
      RecordTextSize(rs[k], k == |rs| - 1);
    }
    JoinLength(ts, ns, 0);
  }

  /** What wifi_ap_record_t can hold, with an SSID that escapes to at most 54 bytes. */
  predicate Small(r: ApRecord) {
    && |Escape(r.ssid)| <= 54
    && 0 <= r.primary < 256 && -128 <= r.rssi < 128 && 0 <= r.authmode < 10
  }

  lemma {:induction false} SmallSize(r: ApRecord)
    requires Small(r)
    ensures RecordSize(r) <= JSON_ONE_APP_SIZE
  {
    assert PowerOfTen(1) == 10 && PowerOfTen(3) == 1000;
    DigitsLength(r.primary, 3);
    DigitsLength(if r.rssi < 0 then -r.rssi else r.rssi, 3);
    DigitsLength(r.authmode, 1);
  }

  /** The bytes allocated for the list. */
  const LIST_SIZE := MAX_AP_NUM * JSON_ONE_APP_SIZE + 4

  /** Exactly when a list fits the allocated buffer, and that a full one does with SSIDs of up to 54 escaped bytes. */
  lemma {:induction false} ListFitsIff(rs: seq<ApRecord>)
    ensures |ApText(rs)| < LIST_SIZE <==> TotalSize(rs) <= 1487
    ensures |rs| <= 15 && (forall i :: 0 <= i < |rs| ==> Small(rs[i])) ==> |ApText(rs)| < LIST_SIZE
  {
    DocumentSize(rs);
    if |rs| <= 15 && forall i :: 0 <= i < |rs| ==> Small(rs[i]) {
      var ns := Sizes(rs);
      forall k | 0 <= k < |rs| ensures ns[k] <= JSON_ONE_APP_SIZE {
        SmallSize(rs[k]);
      }
      SumAtMost(ns, 0, JSON_ONE_APP_SIZE);
    }
  }

  function Quotes(n: nat): (t: seq<byte>)
    ensures |t| == n && forall i :: 0 <= i < n ==> t[i] == QUOTE
  {
    seq(n, i => QUOTE)
  }

  lemma {:induction false} QuotesEscaped(t: seq<byte>)
    requires forall i :: 0 <= i < |t| ==> t[i] == QUOTE
    ensures |Escape(t)| == 2 * |t|
  {
    if t != [] {
      QuotesEscaped(t[1..]);
    }
  }

  lemma {:induction false} QuotedSize(r: ApRecord)
    requires r.ssid == Quotes(32)
    ensures 104 <= RecordSize(r)
  {
    QuotesEscaped(r.ssid);
  }

  lemma {:induction false} SumAtLeast(ns: seq<nat>, i: nat, low: nat)
    requires i <= |ns| && forall k :: 0 <= k < |ns| ==> low <= ns[k]
    ensures low * (|ns| - i) <= SumFrom(ns, i)
    decreases |ns| - i
  {
    if i < |ns| {
      SumAtLeast(ns, i + 1, low);
      assert low * (|ns| - i) == low * (|ns| - (i + 1)) + low;
    }
  }

  /** Fifteen networks whose names are 32 quotes do not fit, whatever their numbers. */
  lemma {:induction false} QuotedListDoesNotFit(rs: seq<ApRecord>)
    requires |rs| == 15 && forall k :: 0 <= k < |rs| ==> rs[k].ssid == Quotes(32)
    ensures |ApText(rs)| >= LIST_SIZE
  {
    DocumentSize(rs);
    var ns := Sizes(rs);
    forall k | 0 <= k < |rs| ensures 104 <= ns[k] {
      QuotedSize(rs[k]);
    }
    SumAtLeast(ns, 0, 104);
  }

  // ------------------------------------------------------------------------
  // Round trip
  // ------------------------------------------------------------------------

  /** What a client is to read of one record. */
  function Entry(r: ApRecord): Json {
    JObject([(Ascii("ssid"), JString(r.ssid)), (Ascii("chan"), JNumber(r.primary)),
             (Ascii("rssi"), JNumber(r.rssi)), (Ascii("auth"), JNumber(r.authmode))])
  }

  lemma EntryOfFields(r: ApRecord)
    ensures JObject(Members(Fields(r))) == Entry(r)
  {
    var ms := Members(Fields(r));
    assert ms == [ms[0], ms[1], ms[2], ms[3]];
  }

  function Entries(rs: seq<ApRecord>): (js: seq<Json>)
    ensures |js| == |rs| && forall i :: 0 <= i < |rs| ==> js[i] == Entry(rs[i])
  {
    seq(|rs|, i requires 0 <= i < |rs| => Entry(rs[i]))
  }

  /** Four members printed one behind the other, each behind the literal for its name. */
  lemma {:induction false} FourMembers(n: seq<seq<byte>>, v: seq<Scalar>, l: seq<seq<byte>>, end: seq<byte>)
    requires |n| == |v| == |l| == 4
    requires l[0] == NameLiteral(LBRACE, n[0])
    requires forall i :: 1 <= i < 4 ==> l[i] == NameLiteral(COMMA, n[i])
    ensures l[0] + PrintScalar(v[0]) + ((l[1] + PrintScalar(v[1]) + (l[2] + PrintScalar(v[2]) +
            (l[3] + PrintScalar(v[3]) + [RBRACE]))) + end)
         == PrintObject([(n[0], v[0]), (n[1], v[1]), (n[2], v[2]), (n[3], v[3])]) + end
  {
    var m3 := [(n[3], v[3])] + [];
    var m2 := [(n[2], v[2])] + m3;
    var m1 := [(n[1], v[1])] + m2;
    PrintFirst(COMMA, n[3], v[3], [], l[3]);
    PrintFirst(COMMA, n[2], v[2], m3, l[2]);
    PrintFirst(COMMA, n[1], v[1], m2, l[1]);
    PrintFirst(LBRACE, n[0], v[0], m1, l[0]);
    assert [(n[0], v[0])] + m1 == [(n[0], v[0]), (n[1], v[1]), (n[2], v[2]), (n[3], v[3])];
    Associate(l[0] + PrintScalar(v[0]), PrintMembers(COMMA, m1), end);
  }

  /** One entry is the printed object of its fields and the list's separator. */
  lemma {:induction false} RecordTextIsObject(r: ApRecord, last: bool)
    ensures RecordText(r, last) == PrintObject(Fields(r)) + [Separator(last), LF]
  {
    assert Ascii("{\"ssid\":") == NameLiteral(LBRACE, Ascii("ssid"));
    assert Ascii(",\"chan\":") == NameLiteral(COMMA, Ascii("chan"));
    assert Ascii(",\"rssi\":") == NameLiteral(COMMA, Ascii("rssi"));
    assert Ascii(",\"auth\":") == NameLiteral(COMMA, Ascii("auth"));
    assert Ascii("}") == [RBRACE];
    FourMembers([Ascii("ssid"), Ascii("chan"), Ascii("rssi"), Ascii("auth")],
                [Text(r.ssid), Number(r.primary), Number(r.rssi), Number(r.authmode)],
                [Ascii("{\"ssid\":"), Ascii(",\"chan\":"), Ascii(",\"rssi\":"), Ascii(",\"auth\":")],
                [Separator(last), LF]);
  }

  lemma {:induction false} LastItemForm(s: seq<byte>, item: Json)
    requires ParseValue(s) == Some((item, [RBRACKET, LF]))
    ensures ParseItems(s) == Some(([item], [LF]))
  {
    assert SkipSpace([RBRACKET, LF]) == [RBRACKET, LF] && [RBRACKET, LF][1..] == [LF];
  }

  lemma {:induction false} MoreItemsForm(s: seq<byte>, item: Json, tail: seq<byte>, items: seq<Json>, rest: seq<byte>)
    requires ParseValue(s) == Some((item, [COMMA, LF] + tail))
    requires tail != [] && !IsSpace(tail[0]) && ParseItems(tail) == Some((items, rest))
    ensures ParseItems(s) == Some(([item] + items, rest))
  {
    var after := [COMMA, LF] + tail;
    assert SkipSpace(after) == after && after[1..] == [LF] + tail;
    assert ([LF] + tail)[1..] == tail;
    assert SkipSpace([LF] + tail) == SkipSpace(tail) == tail;
  }

  lemma {:induction false} FieldNamesArePlain(r: ApRecord)
    ensures PlainNames(Fields(r))
  {
    assert Plain(Ascii("ssid")) && Plain(Ascii("chan")) && Plain(Ascii("rssi")) && Plain(Ascii("auth"));
  }

  /** One entry reads back as the object of its fields, whatever follows. */
  lemma {:induction false} EntryRoundTrip(r: ApRecord, last: bool, tail: seq<byte>)
    ensures var s := RecordText(r, last) + tail;
            s[0] == LBRACE && ParseValue(s) == Some((Entry(r), [Separator(last), LF] + tail))
  {
    EntryOfFields(r);
    FieldNamesArePlain(r);
    RecordTextIsObject(r, last);
    Associate(PrintObject(Fields(r)), [Separator(last), LF], tail);
    ObjectRoundTrip(Fields(r), [Separator(last), LF] + tail);
  }

  /** Text k reads back as item k, with its separator and what follows left over. */
  ghost predicate Reads(ts: seq<seq<byte>>, items: seq<Json>, k: nat, tail: seq<byte>)
    requires k < |ts| == |items|
  {
    var s := ts[k] + tail;
    s != [] && s[0] == LBRACE && ParseValue(s) == Some((items[k], [Separator(k == |ts| - 1), LF] + tail))
  }

  /** The texts from k on read back as js; behind the last one there is nothing. */
  ghost predicate RestReads(ts: seq<seq<byte>>, k: nat, s: seq<byte>, js: seq<Json>) {
    if k == |ts| then s == [] && js == []
    else s != [] && s[0] == LBRACE && ParseItems(s) == Some((js, [LF]))
  }

  lemma {:induction false} NextItem(ts: seq<seq<byte>>, items: seq<Json>, k: nat, tail: seq<byte>, rest: seq<Json>)
    requires k < |ts| == |items| && Reads(ts, items, k, tail) && RestReads(ts, k + 1, tail, rest)
    ensures RestReads(ts, k, ts[k] + tail, [items[k]] + rest)
  {
    if k == |ts| - 1 {
      assert [RBRACKET, LF] + tail == [RBRACKET, LF];
      LastItemForm(ts[k] + tail, items[k]);
      assert [items[k]] + rest == [items[k]];
    } else {
      MoreItemsForm(ts[k] + tail, items[k], tail, rest, [LF]);
    }
  }

  /** What holds behind the last text and is carried over each text holds of all of them. */
  lemma {:induction false} JoinInduction(ts: seq<seq<byte>>, items: seq<Json>, i: nat,
                                         P: (nat, seq<byte>, seq<Json>) -> bool)
    requires i <= |ts| == |items| && P(|ts|, [], [])
    requires forall k: nat, s, js :: k < |ts| && P(k + 1, s, js) ==> P(k, ts[k] + s, [items[k]] + js)
    ensures P(i, JoinFrom(ts, i), items[i..])
    decreases |ts| - i
  {
    if i < |ts| {
      JoinInduction(ts, items, i + 1, P);
      assert items[i..] == [items[i]] + items[i + 1..];
    } else {
      assert items[i..] == [];
    }
  }

  lemma {:induction false} ArrayForm(s: seq<byte>, inner: seq<byte>, items: seq<Json>)
    requires s == [LBRACKET] + inner
    requires inner != [] && inner[0] == LBRACE && ParseItems(inner) == Some((items, [LF]))
    ensures Parse(s) == Some(JArray(items))
  {
    assert s[1..] == inner && SkipSpace(inner) == inner && SkipSpace(s) == s;
    assert ParseValue(s) == Some((JArray(items), [LF]));
    assert SkipSpace([LF]) == [];
  }

  /** Reading the published list returns every record's fields, in order. */
  lemma {:induction false} ListRoundTrip(rs: seq<ApRecord>)
    requires rs != []
    ensures Parse(ApText(rs)) == Some(JArray(Entries(rs)))
  {
    var ts, items := Texts(rs), Entries(rs);
    forall k: nat, tail | k < |ts|
      ensures Reads(ts, items, k, tail)
    {
      TextAt(rs, k);
      EntryRoundTrip(rs[k], k == |rs| - 1, tail);
    }
    var P := (k: nat, s, js) => k <= |ts| && RestReads(ts, k, s, js);
    forall k: nat, s, js | k < |ts| && P(k + 1, s, js) ensures P(k, ts[k] + s, [items[k]] + js) {
      assert Reads(ts, items, k, s);
      NextItem(ts, items, k, s, js);
    }
    JoinInduction(ts, items, 0, P);
    assert items[0..] == items;
    ArrayForm(ApText(rs), JoinFrom(ts, 0), items);
  }

  lemma {:induction false} ListedAsStrong(scan: seq<ApRecord>, i: nat) returns (k: nat)
    requires i < |scan| && scan[i].ssid != []
    ensures k < |Unique(scan)|
    ensures var u := Unique(scan)[k]; u.ssid == scan[i].ssid && u.authmode == scan[i].authmode && u.rssi >= scan[i].rssi
  {
    EveryNetworkIsListed(scan, i);
    k :| 0 <= k < |Unique(scan)| && Unique(scan)[k].ssid == scan[i].ssid && Unique(scan)[k].authmode == scan[i].authmode;
    SignalIsStrongest(scan, k);
  }

  /** Every scanned network with a name is in the published list, at its strongest signal or better. */
  lemma {:induction false} ScannedNetworkIsServed(scan: seq<ApRecord>, i: nat) returns (k: nat)
    requires i < |scan| && scan[i].ssid != []
    ensures k < |Unique(scan)|
    ensures Parse(ApText(Unique(scan))) == Some(JArray(Entries(Unique(scan))))
    ensures var u := Unique(scan)[k];
            && Entries(Unique(scan))[k] == Entry(u)
            && u.ssid == scan[i].ssid && u.authmode == scan[i].authmode && u.rssi >= scan[i].rssi
  {
    k := ListedAsStrong(scan, i);
    ListRoundTrip(Unique(scan));
  }
}
