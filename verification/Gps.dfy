/**
 The GPS receiver (main/gps_if.c): each sentence is parsed with a cursor, and the position, date and
 time it states are kept until a later sentence states them again.
 */
module Gps {
  import opened Bytes
  import opened TextSearch
  import opened Nmea

  // ------------------------------------------------------------------------
  // What a sentence changes
  // ------------------------------------------------------------------------

  datatype State = State(lat: real, lon: real, alt: real, year: nat, month: nat, day: nat, time: Clock)

  const START := State(-1.0, -1.0, -1.0, 0, 0, 0, Clock(0, 0, 0))

  function Update(s: State, o: Outcome): State {
    match o
    case Located(fix) => s.(lat := fix.lat, lon := fix.lon, alt := fix.alt, time := fix.time)
    case Dated(d) => s.(year := d.date.year, month := d.date.month, day := d.date.day, time := d.time)
    case Rejected => s
    case BadChecksum => s
    case OutOfBounds => s
  }

  /** What the sentences of a run come to. */
  function Outcomes(h: seq<seq<byte>>): (os: seq<Outcome>)
    ensures |os| == |h| && forall i :: 0 <= i < |h| ==> os[i] == ParseSentence(h[i])
  {
    seq(|h|, i requires 0 <= i < |h| => ParseSentence(h[i]))
  }

  /** No sentence of the run leads the parser out of bounds. */
  ghost predicate InBounds(os: seq<Outcome>) {
    forall i :: 0 <= i < |os| ==> os[i] != OutOfBounds
  }

  /** The state after a run whose sentences all stay in bounds. */
  function After(os: seq<Outcome>): State {
    if os == [] then START else Update(After(os[..|os| - 1]), os[|os| - 1])
  }

  /** The position is that of the last GGA sentence taken. */
  lemma {:induction false} PositionIsLatest(os: seq<Outcome>, k: nat)
    requires InBounds(os) && k < |os| && os[k].Located?
    requires forall j :: k < j < |os| ==> !os[j].Located?
    ensures var s, fix := After(os), os[k].fix; s.lat == fix.lat && s.lon == fix.lon && s.alt == fix.alt
    decreases |os|
  {
    if k < |os| - 1 {
      PositionIsLatest(os[..|os| - 1], k);
    }
  }

  /** The date is that of the last RMC sentence taken, whether or not it reports a fix. */
  lemma {:induction false} DateIsLatest(os: seq<Outcome>, k: nat)
    requires InBounds(os) && k < |os| && os[k].Dated?
    requires forall j :: k < j < |os| ==> !os[j].Dated?
    ensures var s, date := After(os), os[k].dated.date;
            s.year == date.year && s.month == date.month && s.day == date.day
    decreases |os|
  {
    if k < |os| - 1 {
      DateIsLatest(os[..|os| - 1], k);
    }
  }

  function TimeOf(o: Outcome): Option<Clock> {
    if o.Located? then Some(o.fix.time) else if o.Dated? then Some(o.dated.time) else None
  }

  /** The time is that of the last sentence taken, of either kind. */
  lemma {:induction false} TimeIsLatest(os: seq<Outcome>, k: nat)
    requires InBounds(os) && k < |os| && TimeOf(os[k]).Some?
    requires forall j :: k < j < |os| ==> TimeOf(os[j]).None?
    ensures Some(After(os).time) == TimeOf(os[k])
    decreases |os|
  {
    if k < |os| - 1 {
      TimeIsLatest(os[..|os| - 1], k);
    }
  }

  /** What no sentence stated is still as it was at the start. */
  lemma {:induction false} NothingStated(os: seq<Outcome>)
    requires InBounds(os)
    ensures (forall j :: 0 <= j < |os| ==> !os[j].Located?) ==>
              After(os).lat == After(os).lon == After(os).alt == -1.0
    ensures (forall j :: 0 <= j < |os| ==> !os[j].Dated?) ==>
              After(os).year == After(os).month == After(os).day == 0
    ensures (forall j :: 0 <= j < |os| ==> TimeOf(os[j]).None?) ==> After(os) == START
  {
    if os != [] {
      var before := os[..|os| - 1];
      NothingStated(before);
      assert forall j :: 0 <= j < |before| ==> before[j] == os[j];
    }
  }

  // ------------------------------------------------------------------------
  // The cursor as an index
  // ------------------------------------------------------------------------

  /** strchr for a comma, and one further. */
  method BehindComma(s: seq<byte>, p: nat) returns (q: Option<nat>)
    ensures match q case None => Next(Drop(s, p)).Undefined? case Some(i) => Next(Drop(s, p)) == Done(Drop(s, i))
  {
    var i := p;
    while i < |s| && s[i] != COMMA
      invariant p <= i
      invariant Next(Drop(s, p)) == Next(Drop(s, i))
    {
      assert Drop(s, i)[1..] == Drop(s, i + 1);
      i := i + 1;
    }
    if i < |s| {
      assert Drop(s, i)[1..] == Drop(s, i + 1);
      q := Some(i + 1);
    } else {
      q := None;
    }
  }

  method BehindCommas(s: seq<byte>, p: nat, n: nat) returns (q: Option<nat>)
    ensures match q
            case None => NextField(Drop(s, p), n).Undefined?
            case Some(i) => NextField(Drop(s, p), n) == Done(Drop(s, i))
    decreases n
  {
    if n == 0 {
      return Some(p);
    }
    q := BehindComma(s, p);
    if q.Some? {
      q := BehindCommas(s, q.value, n - 1);
    }
  }

  lemma DropTwice(s: seq<byte>, p: nat, n: nat)
    ensures Drop(Drop(s, p), n) == Drop(s, p + n)
  {
  }

  function ByteAt(s: seq<byte>, p: nat): byte {
    if p < |s| then s[p] else NUL
  }

  /** strncpy: so many bytes of the text, zeros from its end on. */
  method StrNCpy(buf: array<byte>, at: nat, s: seq<byte>, p: nat, n: nat)
    requires at + n <= buf.Length
    modifies buf
    ensures forall k :: at <= k < at + n ==> buf[k] == ByteAt(s, p + (k - at))
    ensures forall k :: 0 <= k < buf.Length && !(at <= k < at + n) ==> buf[k] == old(buf[k])
  {
    for i := 0 to n
      invariant forall k :: at <= k < at + i ==> buf[k] == ByteAt(s, p + (k - at))
      invariant forall k :: 0 <= k < buf.Length && !(at <= k < at + i) ==> buf[k] == old(buf[k])
    {
      buf[at + i] := ByteAt(s, p + i);
    }
  }

  /** The digits of the degrees as the buffer holds them. */
  lemma {:induction false} DegreesInBuffer(b: seq<byte>, s: seq<byte>, p: nat, width: nat)
    requires NulFree(s) && |b| > width && b[width] == 0
    requires forall k :: 0 <= k < width ==> b[k] == ByteAt(s, p + k)
    ensures CStr(b) == Take(Drop(s, p), width)
  {
    var t := Take(Drop(s, p), width);
    assert forall k :: 0 <= k < |t| ==> b[k] == t[k];
    assert b == t + b[|t|..];
    CStrStops(t, b[|t|..]);
  }

  lemma {:induction false} MinutesInBuffer(b: seq<byte>, s: seq<byte>, p: nat)
    requires NulFree(s) && |b| > 6 && b[6] == 0
    requires forall k :: 0 <= k < 2 ==> b[k] == ByteAt(s, p + k)
    requires forall k :: 2 <= k < 6 ==> b[k] == ByteAt(s, p + 3 + (k - 2))
    ensures CStr(b) == Take(Drop(s, p), 2) + (if |Drop(s, p)| >= 2 then Take(Drop(Drop(s, p), 3), 4) else [])
  {
    DropTwice(s, p, 3);
    var u := Take(Drop(s, p), 2);
    var v := if |u| == 2 then Take(Drop(s, p + 3), 4) else [];
    var t := u + v;
    assert forall k :: 0 <= k < |t| ==> b[k] == t[k];
    assert b[|t|] == 0;
    assert b == t + b[|t|..];
    CStrStops(t, b[|t|..]);
  }

  method ReadDegrees(degreebuff: array<byte>, s: seq<byte>, p: nat, width: nat) returns (degree: int)
    requires NulFree(s) && width <= 3 && degreebuff.Length == 10
    modifies degreebuff
    ensures degree == DegreeUnits(Drop(s, p), width)
  {
    StrNCpy(degreebuff, 0, s, p, width);
    degreebuff[width] := 0;
    DegreesInBuffer(degreebuff[..], s, p, width);
    degree := Int32(Atol(CStr(degreebuff[..])) * 10_000_000);
  }

  method ReadMinutes(degreebuff: array<byte>, s: seq<byte>, p: nat) returns (minutes: int)
    requires NulFree(s) && degreebuff.Length == 10
    modifies degreebuff
    ensures minutes == MinuteUnits(Drop(s, p))
  {
    StrNCpy(degreebuff, 0, s, p, 2);
    StrNCpy(degreebuff, 2, s, p + 3, 4);
    degreebuff[6] := 0;
    MinutesInBuffer(degreebuff[..], s, p);
    minutes := TruncDiv(50 * Atol(CStr(degreebuff[..])), 3);
  }

  lemma AngleAbsent(t: seq<byte>, width: nat)
    requires Here(t) == COMMA
    ensures Angle(t, width) == (Arc(0, 0), t) && ToDegrees(false, Arc(0, 0)) == 0.0
  {
  }

  lemma AnglePresent(s: seq<byte>, p: nat, width: nat)
    requires ByteAt(s, p) != COMMA
    ensures Angle(Drop(s, p), width)
         == (Arc(DegreeUnits(Drop(s, p), width), MinuteUnits(Drop(s, p + width))), Drop(s, p + width + 3))
  {
    DropTwice(s, p, width);
    DropTwice(s, p + width, 3);
    assert Here(Drop(s, p)) == ByteAt(s, p);
  }

  /** The block that reads a latitude (two digits of degrees) or a longitude (three). */
  method ReadAngle(s: seq<byte>, p: nat, width: nat) returns (x: real, q: nat)
    requires NulFree(s) && width <= 3
    ensures x == ToDegrees(false, Angle(Drop(s, p), width).0) && Drop(s, q) == Angle(Drop(s, p), width).1
  {
    x, q := 0.0, p;
    if ByteAt(s, q) == COMMA {
      assert Here(Drop(s, p)) == COMMA;
      AngleAbsent(Drop(s, p), width);
      return;
    }
    var degreebuff := new byte[10];
    var degree := ReadDegrees(degreebuff, s, q, width);
    q := q + width;
    var minutes := ReadMinutes(degreebuff, s, q);
    q := q + 3;
    AnglePresent(s, p, width);
    x := Combine(degree, minutes);
  }

  /** Both angles with their hemispheres. */
  method ReadPosition(s: seq<byte>, p: nat) returns (r: Reading<(real, real)>, q: nat)
    requires NulFree(s)
    ensures match ReadPlace(Drop(s, p))
            case Undefined => r.Undefined?
            case Refused => r.Refused?
            case Done(place) =>
              && r == Done((ToDegrees(place.south, place.lat), ToDegrees(place.west, place.lon)))
              && Drop(s, q) == place.rest
  {
    q := p;
    var latitude, p1 := ReadAngle(s, p, 2);
    var p2 := BehindComma(s, p1);
    if p2.None? {
      return Undefined, q;
    }
    var south := Hemisphere(Drop(s, p2.value), NORTH, SOUTH);
    if south.IsFailure() {
      return Refused, q;
    }
    var p3 := BehindComma(s, p2.value);
    if p3.None? {
      return Undefined, q;
    }
    var longitude, p4 := ReadAngle(s, p3.value, 3);
    var p5 := BehindComma(s, p4);
    if p5.None? {
      return Undefined, q;
    }
    var west := Hemisphere(Drop(s, p5.value), EAST, WEST);
    if west.IsFailure() {
      return Refused, q;
    }
    q := p5.value;
    r := Done((Negate(south.value, latitude), Negate(west.value, longitude)));
  }

  /** The check on a sentence that has its checksum where it is looked for. */
  method ChecksumMatches(s: seq<byte>) returns (ok: bool)
    requires HasChecksum(s) && |s| - 4 < UINT8
    ensures ok == ChecksumHolds(s)
  {
    var sum: nat := ParseHex(s[|s| - 3]) * 16;
    sum := sum + ParseHex(s[|s| - 2]);
    var i := 2;
    while i < |s| - 4
      invariant 2 <= i && (i <= |s| - 4 || i == 2)
      invariant sum == XorTo(StatedChecksum(s), s, if i <= |s| - 4 then i else |s| - 4)
    {
      sum := Xor(sum, s[i]);
      i := i + 1;
    }
    ChecksumIsZeroSum(s);
    ok := sum == 0;
  }

  /** The time, and where the next field starts. */
  method TimeField(s: seq<byte>) returns (clock: Clock, q: Option<nat>)
    ensures match q
            case None => ReadTime(s).Undefined?
            case Some(p) => ReadTime(s) == Done((clock, Drop(s, p)))
  {
    assert Drop(s, 0) == s;
    clock := Clock(0, 0, 0);
    q := BehindComma(s, 0);
    if q.Some? {
      clock := ToClock(ToUint32(Atof(Drop(s, q.value))));
      q := BehindComma(s, q.value);
    }
  }

  /** The time, position and altitude of a GGA sentence. */
  method ReadFix(s: seq<byte>) returns (r: Reading<Fix>)
    requires NulFree(s)
    ensures r == ReadGga(s)
  {
    var clock, p := TimeField(s);
    if p.None? { return Undefined; }
    var place, q := ReadPosition(s, p.value);
    if place.IsFailure() { return place.PropagateFailure(); }
    p := BehindCommas(s, q, 4);
    if p.None? { return Undefined; }
    var altitude := AltitudeAt(s, p.value);
    p := BehindCommas(s, p.value, 2);
    if p.None? { return Undefined; }
    r := Done(Fix(altitude, place.value.0, place.value.1, clock));
  }

  function AltitudeAt(s: seq<byte>, p: nat): real {
    if ByteAt(s, p) == COMMA then 0.0 else Atof(Drop(s, p))
  }

  /** The time, status, position and date of an RMC sentence; the position is read and dropped. */
  method ReadDate(s: seq<byte>) returns (r: Reading<Date>)
    requires NulFree(s)
    ensures r == ReadRmc(s)
  {
    var clock, p := TimeField(s);
    if p.None? { return Undefined; }
    var status := ByteAt(s, p.value);
    assert status == Here(Drop(s, p.value));
    if status != ACTIVE && status != VOID { return Refused; }
    p := BehindComma(s, p.value);
    if p.None? { return Undefined; }
    var place, q := ReadPosition(s, p.value);
    if place.IsFailure() { return place.PropagateFailure(); }
    p := BehindCommas(s, q, 3);
    if p.None? { return Undefined; }
    var date := DateAt(s, p.value);
    r := Done(Date(date, clock));
  }

  function DateAt(s: seq<byte>, p: nat): Calendar {
    if ByteAt(s, p) == COMMA then Calendar(0, 0, 0) else ToCalendar(ToUint32(Atof(Drop(s, p))))
  }

  // ------------------------------------------------------------------------
  // The receiver
  // ------------------------------------------------------------------------

  class Receiver {
    var lat: real
    var lon: real
    var alt: real
    var year: nat
    var month: nat
    var day: nat
    var time: Clock

    function Now(): State
      reads this
    {
      State(lat, lon, alt, year, month, day, time)
    }

    constructor ()
      ensures Now() == START
    {
      lat, lon, alt := -1.0, -1.0, -1.0;
      year, month, day := 0, 0, 0;
      time := Clock(0, 0, 0);
    }

    method ParseGga(s: seq<byte>) returns (r: Reading<Fix>)
      requires NulFree(s)
      modifies this
      ensures r == ReadGga(s)
      ensures Now() == if r.Done? then Update(old(Now()), Located(r.value)) else old(Now())
    {
      r := ReadFix(s);
      if r.Done? {
        lat, lon, alt, time := r.value.lat, r.value.lon, r.value.alt, r.value.time;
      }
    }

    method ParseRmc(s: seq<byte>) returns (r: Reading<Date>)
      requires NulFree(s)
      modifies this
      ensures r == ReadRmc(s)
      ensures Now() == if r.Done? then Update(old(Now()), Dated(r.value)) else old(Now())
    {
      r := ReadDate(s);
      if r.Done? {
        day, month, year, time := r.value.date.day, r.value.date.month, r.value.date.year, r.value.time;
      }
    }

    /** parse. Where the sentence leads it out of bounds nothing is said about the state. */
    method Parse(s: seq<byte>) returns (o: Outcome)
      requires NulFree(s)
      modifies this
      ensures o == ParseSentence(s)
      ensures o != OutOfBounds ==> Now() == Update(old(Now()), o)
    {
      if |s| < 4 || (s[|s| - 4] == STAR && |s| - 4 >= UINT8) {
        return OutOfBounds;
      }
      if s[|s| - 4] == STAR {
        var ok := ChecksumMatches(s);
        if !ok { return BadChecksum; }
      }
      CStrStops(s, [0]);
      var gga := StrStr(s + [0], GGA);
      if gga.Some? {
        var r := ParseGga(s);
        return if r.Done? then Located(r.value) else if r.Refused? then Rejected else OutOfBounds;
      }
      var rmc := StrStr(s + [0], RMC);
      if rmc.Some? {
        var r := ParseRmc(s);
        return if r.Done? then Dated(r.value) else if r.Refused? then Rejected else OutOfBounds;
      }
      o := Rejected;
    }

    /** Sentences one after the other, up to the first that leads out of bounds. */
    method ParseAll(h: seq<seq<byte>>) returns (ok: bool)
      requires Now() == START && forall i :: 0 <= i < |h| ==> NulFree(h[i])
      modifies this
      ensures ok == InBounds(Outcomes(h))
      ensures ok ==> Now() == After(Outcomes(h))
    {
      ghost var os := Outcomes(h);
      for i := 0 to |h|
        invariant InBounds(os[..i]) && Now() == After(os[..i])
      {
        var o := Parse(h[i]);
        assert o == os[i];
        if o == OutOfBounds {
          return false;
        }
        AfterNext(os, i);
      }
      assert os[..|h|] == os;
      ok := true;
    }

    /** GPS_Poll. */
    method Poll() returns (gps: State)
      ensures gps == Now()
    {
      gps := State(lat, lon, alt, year, month, day, time);
    }
  }

  lemma AfterNext(os: seq<Outcome>, i: nat)
    requires i < |os|
    ensures After(os[..i + 1]) == Update(After(os[..i]), os[i])
    ensures InBounds(os[..i]) && os[i] != OutOfBounds ==> InBounds(os[..i + 1])
  {
    assert os[..i + 1][..i] == os[..i];
  }

  /**
   A receiver that parses a run of sentences and is polled. A sentence that leads out of bounds ends
   the run, and then nothing is said of the state; otherwise the poll returns what the run stated.
   */
  method Listen(h: seq<seq<byte>>) returns (ok: bool, gps: State)
    requires forall i :: 0 <= i < |h| ==> NulFree(h[i])
    ensures ok == InBounds(Outcomes(h))
    ensures ok ==> gps == After(Outcomes(h))
  {
    var receiver := new Receiver();
    ok := receiver.ParseAll(h);
    gps := receiver.Poll();
  }
}
