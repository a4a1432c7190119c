/**
 What the GPS parser (main/gps_if.c, parse) reads from a GGA or RMC sentence. A cursor is the text from
 there to the end of the sentence; behind the end the buffer holds zeros. Numbers are exact.
 */
module Nmea {
  import opened Bytes
  import opened TextSearch
  import opened Numerals

  const UINT8 := 0x100
  const INT32_MAX := 0x7fff_ffff
  const UINT32 := 0x1_0000_0000

  // ------------------------------------------------------------------------
  // Numbers
  // ------------------------------------------------------------------------

  /** Conversion of a number to an integer type: toward zero. */
  function Trunc(x: real): int {
    if x >= 0.0 then x.Floor else -(-x).Floor
  }

  /** Integer division of C. */
  function TruncDiv(a: int, b: int): int
    requires b > 0
  {
    if a >= 0 then a / b else -(-a / b)
  }

  function Int32(n: int): int {
    (n + INT32_MAX + 1) % UINT32 - (INT32_MAX + 1)
  }

  predicate IsBlank(b: byte) {
    b == 32 || 9 <= b <= 13
  }

  function SkipBlanks(t: seq<byte>): seq<byte> {
    if t != [] && IsBlank(t[0]) then SkipBlanks(t[1..]) else t
  }

  /** Whether a number starts with a minus, and its text behind the sign. */
  function Signed(t: seq<byte>): (bool, seq<byte>) {
    var u := SkipBlanks(t);
    if u != [] && (u[0] == MINUS || u[0] == PLUS) then (u[0] == MINUS, u[1..]) else (false, u)
  }

  const PLUS: byte := 43
  const POINT: byte := 46

  /** atol. */
  function Atol(t: seq<byte>): int {
    var (negative, u) := Signed(t);
    var n: int := ParseDigits(0, u).0;
    if negative then -n else n
  }

  /** The digits behind a decimal point. */
  function Fraction(t: seq<byte>): real {
    var (f, rest) := ParseDigits(0, t);
    f as real / PowerOfTen(|t| - |rest|) as real
  }

  /** atof on decimal numbers without exponent. */
  function Atof(t: seq<byte>): real {
    var (negative, u) := Signed(t);
    var (n, rest) := ParseDigits(0, u);
    var x := n as real + if rest != [] && rest[0] == POINT then Fraction(rest[1..]) else 0.0;
    if negative then -x else x
  }

  function ToUint32(x: real): nat {
    Trunc(x) % UINT32
  }

  // ------------------------------------------------------------------------
  // The cursor
  // ------------------------------------------------------------------------

  /** What one step of the parser yields. Beyond Undefined the program's behaviour is undefined. */
  datatype Reading<T> = Undefined | Refused | Done(value: T) {
    predicate IsFailure() {
      !Done?
    }

    function PropagateFailure<U>(): (r: Reading<U>)
      requires IsFailure()
      ensures if Undefined? then r.Undefined? else r.Refused?
    {
      if Undefined? then Undefined else Refused
    }

    function Extract(): T
      requires !IsFailure()
    {
      value
    }
  }

  function Here(t: seq<byte>): byte {
    if t == [] then NUL else t[0]
  }

  function Drop(t: seq<byte>, n: nat): seq<byte> {
    if n <= |t| then t[n..] else []
  }

  function Take(t: seq<byte>, n: nat): seq<byte> {
    if n <= |t| then t[..n] else t
  }

  /** Behind the next comma; without one, strchr's null pointer is followed. */
  function Next(t: seq<byte>): Reading<seq<byte>> {
    if t == [] then Undefined else if t[0] == COMMA then Done(t[1..]) else Next(t[1..])
  }

  function NextField(t: seq<byte>, n: nat): Reading<seq<byte>>
    decreases n
  {
    if n == 0 then Done(t)
    else
      var u :- Next(t);
      NextField(u, n - 1)
  }

  // ------------------------------------------------------------------------
  // Angles
  // ------------------------------------------------------------------------

  /** Degrees, and minutes converted to degrees, both in units of 1e-7. */
  datatype Arc = Arc(degree: int, minutes: int)

  function DegreeUnits(t: seq<byte>, width: nat): int {
    Int32(Atol(Take(t, width)) * 10_000_000)
  }

  /** Two digits of minutes and the four behind the point, read as one number. */
  function MinuteUnits(t: seq<byte>): int {
    TruncDiv(50 * Atol(Take(t, 2) + (if |t| >= 2 then Take(Drop(t, 3), 4) else [])), 3)
  }

  function Combine(degree: int, minutes: int): real {
    var angle := TruncDiv(degree, 100_000) as real + minutes as real * 0.000006;
    var whole := Trunc(angle / 100.0);
    (angle - 100.0 * whole as real) / 60.0 + whole as real
  }

  /** An angle with so many digits of degrees, and the cursor behind its point; zero if the field is empty. */
  function Angle(t: seq<byte>, width: nat): (Arc, seq<byte>) {
    if Here(t) == COMMA then (Arc(0, 0), t)
    else
      var m := Drop(t, width);
      (Arc(DegreeUnits(t, width), MinuteUnits(m)), Drop(m, 3))
  }

  /** Whether a hemisphere letter turns the angle negative. */
  function Hemisphere(t: seq<byte>, positive: byte, negative: byte): Reading<bool> {
    if Here(t) == COMMA || Here(t) == positive then Done(false)
    else if Here(t) == negative then Done(true)
    else Refused
  }

  const NORTH: byte := 78
  const SOUTH: byte := 83
  const EAST: byte := 69
  const WEST: byte := 87

  function Negate(negative: bool, x: real): real {
    if negative then -x else x
  }

  /** The angle as it is kept: combined, and turned negative in the south and west. */
  function ToDegrees(negative: bool, a: Arc): real {
    Negate(negative, Combine(a.degree, a.minutes))
  }

  datatype Place = Place(lat: Arc, south: bool, lon: Arc, west: bool, rest: seq<byte>)

  /** Latitude, hemisphere, longitude, hemisphere. */
  function ReadPlace(t: seq<byte>): Reading<Place> {
    var (lat, t1) := Angle(t, 2);
    var t2 :- Next(t1);
    var south :- Hemisphere(t2, NORTH, SOUTH);
    var t3 :- Next(t2);
    var (lon, t4) := Angle(t3, 3);
    var t5 :- Next(t4);
    var west :- Hemisphere(t5, EAST, WEST);
    Done(Place(lat, south, lon, west, t5))
  }

  // ------------------------------------------------------------------------
  // Sentences
  // ------------------------------------------------------------------------

  datatype Clock = Clock(hour: nat, min: nat, sec: nat)

  datatype Calendar = Calendar(day: nat, month: nat, year: nat)

  /** Two digits each of hour, minute and second, kept in a byte each. */
  function ToClock(n: nat): Clock {
    Clock(n / 10000 % UINT8, n % 10000 / 100, n % 100)
  }

  function ToCalendar(n: nat): Calendar {
    Calendar(n / 10000 % UINT8, n % 10000 / 100, n % 100)
  }

  datatype Fix = Fix(alt: real, lat: real, lon: real, time: Clock)

  datatype Date = Date(date: Calendar, time: Clock)

  /** The first field behind the sentence's name, and the cursor at the next. */
  function ReadTime(s: seq<byte>): Reading<(Clock, seq<byte>)> {
    var t1 :- Next(s);
    var t2 :- Next(t1);
    Done((ToClock(ToUint32(Atof(t1))), t2))
  }

  function ReadGga(s: seq<byte>): Reading<Fix> {
    var time :- ReadTime(s);
    var place :- ReadPlace(time.1);
    var t3 :- NextField(place.rest, 4);
    var t4 :- NextField(t3, 2);
    Done(Fix(if Here(t3) == COMMA then 0.0 else Atof(t3),
             ToDegrees(place.south, place.lat), ToDegrees(place.west, place.lon), time.0))
  }

  const ACTIVE: byte := 65
  const VOID: byte := 86

  function ReadRmc(s: seq<byte>): Reading<Date> {
    var time :- ReadTime(s);
    if Here(time.1) != ACTIVE && Here(time.1) != VOID then Refused
    else
      var t3 :- Next(time.1);
      var place :- ReadPlace(t3);
      var t4 :- NextField(place.rest, 3);
      var date := if Here(t4) == COMMA then Calendar(0, 0, 0) else ToCalendar(ToUint32(Atof(t4)));
      Done(Date(date, time.0))
  }

  // ------------------------------------------------------------------------
  // Checksum
  // ------------------------------------------------------------------------

  /** parseHex: upper-case digits only, zero for anything else. */
  function ParseHex(c: byte): (n: nat)
    ensures n < 16
  {
    if 48 <= c <= 57 then c - 48 else if 65 <= c <= 70 then c - 55 else 0
  }

  const STAR: byte := 42

  /** Exclusive or of two numbers. */
  function Xor(a: nat, b: nat): nat {
    if a == 0 then b
    else if b == 0 then a
    else 2 * Xor(a / 2, b / 2) + (if a % 2 == b % 2 then 0 else 1)
  }

  /** The exclusive or of a start value and of the bytes from the third one up to n. */
  function XorTo(start: nat, s: seq<byte>, n: nat): nat
    requires n <= |s|
  {
    if n <= 2 then start else Xor(XorTo(start, s, n - 1), s[n - 1])
  }

  /** The checksum is looked for at one place only; elsewhere it is not examined. */
  predicate HasChecksum(s: seq<byte>) {
    |s| >= 4 && s[|s| - 4] == STAR
  }

  /** The exclusive or of the bytes from the third one up to the star is what the two digits behind it state. */
  predicate ChecksumHolds(s: seq<byte>)
    requires HasChecksum(s)
  {
    XorTo(0, s, |s| - 4) == StatedChecksum(s)
  }

  function StatedChecksum(s: seq<byte>): nat
    requires HasChecksum(s)
  {
    16 * ParseHex(s[|s| - 3]) + ParseHex(s[|s| - 2])
  }

  lemma {:induction false} XorIsAssociative(a: nat, b: nat, c: nat)
    ensures Xor(Xor(a, b), c) == Xor(a, Xor(b, c))
    decreases a + b + c
  {
    XorHalves(a, b);
    XorHalves(b, c);
    XorHalves(Xor(a, b), c);
    XorHalves(a, Xor(b, c));
    if a + b + c > 0 {
      XorIsAssociative(a / 2, b / 2, c / 2);
      var l, r := Xor(Xor(a, b), c), Xor(a, Xor(b, c));
      assert l % 2 == r % 2 && l / 2 == r / 2;
    }
  }

  lemma {:induction false} XorHalves(a: nat, b: nat)
    ensures Xor(a, b) / 2 == Xor(a / 2, b / 2)
    ensures Xor(a, b) % 2 == (a + b) % 2
  {
    if a > 0 && b > 0 {
      var bit := if a % 2 == b % 2 then 0 else 1;
      DoubleAndBit(Xor(a / 2, b / 2), bit);
      ParityOfSum(a, b);
    }
  }

  lemma DoubleAndBit(n: nat, bit: nat)
    requires bit < 2
    ensures (2 * n + bit) / 2 == n && (2 * n + bit) % 2 == bit
  {
  }

  lemma ParityOfSum(a: nat, b: nat)
    ensures (a + b) % 2 == if a % 2 == b % 2 then 0 else 1
  {
    assert a + b == 2 * (a / 2 + b / 2) + (a % 2 + b % 2);
  }

  lemma {:induction false} XorIsZeroIff(a: nat, b: nat)
    ensures Xor(a, b) == 0 <==> a == b
    decreases a
  {
    if a > 0 && b > 0 {
      XorIsZeroIff(a / 2, b / 2);
    }
  }

  lemma {:induction false} XorFromStart(start: nat, s: seq<byte>, n: nat)
    requires n <= |s|
    ensures XorTo(start, s, n) == Xor(start, XorTo(0, s, n))
  {
    if n > 2 {
      XorFromStart(start, s, n - 1);
      XorIsAssociative(start, XorTo(0, s, n - 1), s[n - 1]);
    } else {
      assert start > 0 ==> Xor(start, 0) == start;
    }
  }

  /** Adding the stated checksum first and looking for zero comes to the same. */
  lemma {:induction false} ChecksumIsZeroSum(s: seq<byte>)
    requires HasChecksum(s)
    ensures XorTo(StatedChecksum(s), s, |s| - 4) == 0 <==> ChecksumHolds(s)
  {
    XorFromStart(StatedChecksum(s), s, |s| - 4);
    XorIsZeroIff(StatedChecksum(s), XorTo(0, s, |s| - 4));
  }

  datatype Outcome = Located(fix: Fix) | Dated(dated: Date) | Rejected | BadChecksum | OutOfBounds

  const GGA: seq<byte> := [36, 71, 80, 71, 71, 65]
  const RMC: seq<byte> := [36, 71, 80, 82, 77, 67]

  function Fields(s: seq<byte>): Outcome {
    if FirstFrom(s, GGA, 0).Some? then
      match ReadGga(s)
      case Done(fix) => Located(fix)
      case Refused => Rejected
      case Undefined => OutOfBounds
    else if FirstFrom(s, RMC, 0).Some? then
      match ReadRmc(s)
      case Done(date) => Dated(date)
      case Refused => Rejected
      case Undefined => OutOfBounds
    else Rejected
  }

  /** One sentence; its loop counter has eight bits. */
  function ParseSentence(s: seq<byte>): Outcome {
    if |s| < 4 || (HasChecksum(s) && |s| - 4 >= UINT8) then OutOfBounds
    else if HasChecksum(s) && !ChecksumHolds(s) then BadChecksum
    else Fields(s)
  }
}
