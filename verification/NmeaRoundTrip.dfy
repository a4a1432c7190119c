/** GGA sentences are read as they were printed, and coordinates keep their order and their place. */
module NmeaRoundTrip {
  import opened Bytes
  import opened TextSearch
  import opened Numerals
  import opened Nmea

  // ------------------------------------------------------------------------
  // Fields
  // ------------------------------------------------------------------------

  ghost predicate CommaFree(f: seq<byte>) {
    forall i :: 0 <= i < |f| ==> f[i] != ',' as int
  }

  ghost predicate AllCommaFree(fs: seq<seq<byte>>) {
    forall i :: 0 <= i < |fs| ==> CommaFree(fs[i])
  }

  /** The fields from the one at i on, with commas between them. */
  function Join(fs: seq<seq<byte>>, i: nat): seq<byte>
    requires i < |fs|
    decreases |fs| - i
  {
    if i == |fs| - 1 then fs[i] else fs[i] + ([',' as int] + Join(fs, i + 1))
  }

  lemma {:induction false} NextInText(f: seq<byte>, rest: seq<byte>)
    requires CommaFree(f)
    ensures Next(f + ([COMMA] + rest)) == Done(rest)
  {
    var t := f + ([COMMA] + rest);
    if f == [] {
      assert t == [COMMA] + rest && t[1..] == rest;
    } else {
      assert t[1..] == f[1..] + ([COMMA] + rest);
      NextInText(f[1..], rest);
    }
  }

  /** From anywhere in a field the cursor moves to the start of the next one. */
  lemma {:induction false} NextOfJoin(fs: seq<seq<byte>>, i: nat, n: nat)
    requires i + 1 < |fs| && CommaFree(fs[i]) && n <= |fs[i]|
    ensures Next(Drop(Join(fs, i), n)) == Done(Join(fs, i + 1))
  {
    var f := fs[i];
    assert Drop(Join(fs, i), n) == f[n..] + ([COMMA] + Join(fs, i + 1));
    NextInText(f[n..], Join(fs, i + 1));
  }

  lemma {:induction false} NextFieldOfJoin(fs: seq<seq<byte>>, i: nat, n: nat)
    requires i + n < |fs| && AllCommaFree(fs)
    ensures NextField(Join(fs, i), n) == Done(Join(fs, i + n))
    decreases n
  {
    if n > 0 {
      NextOfJoin(fs, i, 0);
      assert Drop(Join(fs, i), 0) == Join(fs, i);
      NextFieldOfJoin(fs, i + 1, n - 1);
    }
  }

  // ------------------------------------------------------------------------
  // Numbers in fields
  // ------------------------------------------------------------------------

  /** printf's %0wd. */
  function Padded(n: nat, w: nat): (d: seq<byte>)
    ensures |d| == w && forall i :: 0 <= i < w ==> IsDigit(d[i])
    decreases w
  {
    if w == 0 then [] else Padded(n / 10, w - 1) + [48 + n % 10]
  }

  lemma {:induction false} PaddedRoundTrip(n: nat, w: nat, rest: seq<byte>)
    requires n < PowerOfTen(w) && EndsNumber(rest)
    ensures ParseDigits(0, Padded(n, w) + rest) == (n, rest)
    decreases w
  {
    if w == 0 {
      assert Padded(n, w) + rest == rest;
    } else {
      PaddedRoundTrip(n / 10, w - 1, []);
      assert Padded(n / 10, w - 1) + [] == Padded(n / 10, w - 1);
      ParseDigitsAppend(0, Padded(n / 10, w - 1), 48 + n % 10, rest);
      assert Padded(n, w) + rest == Padded(n / 10, w - 1) + [48 + n % 10] + rest;
    }
  }

  lemma {:induction false} ParseDigitsStops(value: nat, f: seq<byte>, rest: seq<byte>)
    requires EndsNumber(rest)
    ensures ParseDigits(value, f + rest) == (ParseDigits(value, f).0, ParseDigits(value, f).1 + rest)
    decreases |f|
  {
    if f == [] || !IsDigit(f[0]) {
      assert f == [] ==> f + rest == rest;
    } else {
      assert (f + rest)[1..] == f[1..] + rest;
      ParseDigitsStops(10 * value + (f[0] - 48), f[1..], rest);
    }
  }

  lemma {:induction false} SkipBlanksStops(f: seq<byte>, rest: seq<byte>)
    requires rest != [] && !IsBlank(rest[0])
    ensures SkipBlanks(f + rest) == SkipBlanks(f) + rest
  {
    if f == [] {
      assert f + rest == rest;
    } else if IsBlank(f[0]) {
      assert (f + rest)[1..] == f[1..] + rest;
      SkipBlanksStops(f[1..], rest);
    }
  }

  lemma {:induction false} SignedStops(f: seq<byte>, rest: seq<byte>)
    requires rest != [] && rest[0] == COMMA
    ensures Signed(f + rest) == (Signed(f).0, Signed(f).1 + rest)
  {
    SkipBlanksStops(f, rest);
    var u := SkipBlanks(f);
    if u != [] {
      assert (u + rest)[1..] == u[1..] + rest;
    } else {
      assert u + rest == rest;
    }
  }

  lemma {:induction false} FractionStops(f: seq<byte>, rest: seq<byte>)
    requires EndsNumber(rest)
    ensures Fraction(f + rest) == Fraction(f)
  {
    ParseDigitsStops(0, f, rest);
  }

  /** A number is read within its field. */
  lemma {:induction false} AtofStops(f: seq<byte>, rest: seq<byte>)
    requires rest != [] && rest[0] == COMMA
    ensures Atof(f + rest) == Atof(f)
  {
    SignedStops(f, rest);
    var u := Signed(f).1;
    ParseDigitsStops(0, u, rest);
    var after := ParseDigits(0, u).1;
    if after != [] {
      assert (after + rest)[1..] == after[1..] + rest;
      FractionStops(after[1..], rest);
    } else {
      assert after + rest == rest;
    }
  }

  ghost predicate AllDigits(d: seq<byte>) {
    forall i :: 0 <= i < |d| ==> IsDigit(d[i])
  }

  lemma {:induction false} DigitsBelow(value: nat, d: seq<byte>)
    requires AllDigits(d)
    ensures ParseDigits(value, d).1 == [] && ParseDigits(value, d).0 < (value + 1) * PowerOfTen(|d|)
    decreases |d|
  {
    if d != [] {
      var v := 10 * value + (d[0] - 48);
      DigitsBelow(v, d[1..]);
      MultiplyMonotone(v + 1, 10 * (value + 1), PowerOfTen(|d| - 1));
      assert 10 * (value + 1) * PowerOfTen(|d| - 1) == (value + 1) * (10 * PowerOfTen(|d| - 1));
    }
  }

  lemma MultiplyMonotone(a: nat, b: nat, p: nat)
    requires a <= b
    ensures a * p <= b * p
  {
  }

  lemma {:induction false} FractionBelowOne(d: seq<byte>)
    requires AllDigits(d)
    ensures 0.0 <= Fraction(d) < 1.0
  {
    DigitsBelow(0, d);
    QuotientBelowOne(ParseDigits(0, d).0, PowerOfTen(|d|));
  }

  lemma QuotientBelowOne(n: nat, p: nat)
    requires n < p
    ensures 0.0 <= n as real / p as real < 1.0
  {
    var x := n as real / p as real;
    assert x * p as real == n as real;
  }

  /** A whole number and a fraction behind a point, or no fraction. */
  lemma {:induction false} WholePart(n: nat, w: nat, fraction: seq<byte>)
    requires 0 < w && n < PowerOfTen(w)
    requires fraction == [] || (fraction[0] == POINT && AllDigits(fraction[1..]))
    ensures Trunc(Atof(Padded(n, w) + fraction)) == n
  {
    var t := Padded(n, w) + fraction;
    assert IsDigit(t[0]) && SkipBlanks(t) == t;
    PaddedRoundTrip(n, w, fraction);
    if fraction != [] {
      FractionBelowOne(fraction[1..]);
      FloorOfSum(n, Fraction(fraction[1..]));
    } else {
      FloorOfSum(n, 0.0);
    }
  }

  lemma FloorOfSum(n: int, x: real)
    requires 0.0 <= x < 1.0
    ensures (n as real + x).Floor == n
  {
  }

  // ------------------------------------------------------------------------
  // Coordinates
  // ------------------------------------------------------------------------

  /** Whole degrees, and minutes in units of 1/10000. */
  datatype Coordinate = Coordinate(degrees: nat, minutes: nat)

  predicate OnGlobe(c: Coordinate) {
    c.degrees <= 180 && c.minutes < 600_000
  }

  /** So many digits of degrees, two of minutes, the point, four more. */
  function CoordinateText(c: Coordinate, width: nat): (t: seq<byte>)
    ensures |t| == width + 7
  {
    Padded(c.degrees, width) + Padded(c.minutes, 6)[..2] + ['.' as int] + Padded(c.minutes, 6)[2..]
  }

  /** The coordinate in degrees. */
  function Exact(c: Coordinate): real {
    c.degrees as real + c.minutes as real / 600_000.0
  }

  /** The fixed-point value the parser forms, in units of 1e-7 degrees. */
  function Fixed(c: Coordinate): nat {
    c.degrees * 10_000_000 + 50 * c.minutes / 3
  }

  /** The floating-point route agrees with the fixed-point one. */
  lemma CombineIsSum(d: nat, m: nat)
    requires m < 16_666_667
    ensures Combine(d * 10_000_000, m) == (d * 10_000_000 + m) as real / 10_000_000.0
  {
    assert TruncDiv(d * 10_000_000, 100_000) == 100 * d;
    var angle := (100 * d) as real + m as real * 0.000006;
    assert angle / 100.0 == d as real + m as real * 0.00000006;
    FloorOfSum(d, m as real * 0.00000006);
  }

  lemma {:induction false} AtolOfPadded(n: nat, w: nat)
    requires 0 < w && n < PowerOfTen(w)
    ensures Atol(Padded(n, w)) == n
  {
    var t := Padded(n, w);
    assert IsDigit(t[0]) && SkipBlanks(t) == t;
    PaddedRoundTrip(n, w, []);
    assert t + [] == t;
  }

  lemma {:induction false} CutCoordinate(a: seq<byte>, q: seq<byte>, rest: seq<byte>, t: seq<byte>)
    requires |q| == 6 && t == a + q[..2] + [POINT] + q[2..] + rest
    ensures Take(t, |a|) == a
    ensures var m := Drop(t, |a|); |m| >= 2 && Take(m, 2) + Take(Drop(m, 3), 4) == q
  {
    var m := q[..2] + [POINT] + q[2..] + rest;
    assert t == a + m && Drop(t, |a|) == m;
    assert Take(m, 2) == q[..2] && Drop(m, 3) == q[2..] + rest;
    assert Take(Drop(m, 3), 4) == q[2..];
    assert q[..2] + q[2..] == q;
  }

  lemma {:induction false} AngleForm(t: seq<byte>, width: nat, a: seq<byte>, q: seq<byte>, d: nat, m: nat)
    requires t != [] && t[0] != COMMA && Take(t, width) == a
    requires var u := Drop(t, width); |u| >= 2 && Take(u, 2) + Take(Drop(u, 3), 4) == q
    requires Atol(a) == d <= 180 && Atol(q) == m < 600_000
    ensures Angle(t, width) == (Arc(d * 10_000_000, 50 * m / 3), Drop(Drop(t, width), 3))
  {
    assert MinuteUnits(Drop(t, width)) == TruncDiv(50 * m, 3) == 50 * m / 3;
    assert DegreeUnits(t, width) == d * 10_000_000;
  }

  /** The two parts of the fixed-point value. */
  function ArcOf(c: Coordinate): Arc {
    Arc(c.degrees * 10_000_000, 50 * c.minutes / 3)
  }

  function Degrees(c: Coordinate, negative: bool): real {
    Negate(negative, Fixed(c) as real / 10_000_000.0)
  }

  /** What is kept is the fixed-point value in degrees, with its sign. */
  lemma ArcIsFixed(c: Coordinate, negative: bool)
    requires OnGlobe(c)
    ensures ToDegrees(negative, ArcOf(c)) == Degrees(c, negative)
  {
    CombineIsSum(c.degrees, 50 * c.minutes / 3);
  }

  /** A printed coordinate is read as its fixed-point parts, and the cursor stops within its field. */
  lemma {:induction false} AngleIsFixed(c: Coordinate, width: nat, rest: seq<byte>)
    requires 0 < width && c.degrees < PowerOfTen(width) && OnGlobe(c)
    ensures Angle(CoordinateText(c, width) + rest, width)
         == (ArcOf(c), Drop(CoordinateText(c, width) + rest, width + 3))
  {
    var t := CoordinateText(c, width) + rest;
    assert t[0] == Padded(c.degrees, width)[0];
    AtolOfPadded(c.degrees, width);
    assert PowerOfTen(3) == 1000 && PowerOfTen(6) == 1_000_000;
    AtolOfPadded(c.minutes, 6);
    CutCoordinate(Padded(c.degrees, width), Padded(c.minutes, 6), rest, t);
    AngleForm(t, width, Padded(c.degrees, width), Padded(c.minutes, 6), c.degrees, c.minutes);
    assert Drop(Drop(t, width), 3) == Drop(t, width + 3);
  }

  /** The value read is below the true one by less than 1e-7 degrees, and fits 32 bits. */
  lemma FixedIsClose(c: Coordinate)
    requires OnGlobe(c)
    ensures 0.0 <= Exact(c) - Fixed(c) as real / 10_000_000.0 < 0.0000001
    ensures Fixed(c) <= INT32_MAX
  {
    var q := 50 * c.minutes / 3;
    assert 3 * q <= 50 * c.minutes < 3 * q + 3;
    assert Exact(c) * 10_000_000.0 == c.degrees as real * 10_000_000.0 + (50 * c.minutes) as real / 3.0;
  }

  predicate Before(c: Coordinate, d: Coordinate) {
    c.degrees < d.degrees || (c.degrees == d.degrees && c.minutes < d.minutes)
  }

  /** Coordinates are read in their order, so no two are read as the same. */
  lemma FixedIsMonotone(c: Coordinate, d: Coordinate)
    requires OnGlobe(c) && OnGlobe(d)
    ensures Before(c, d) <==> Fixed(c) < Fixed(d)
  {
  }

  // ------------------------------------------------------------------------
  // Sentences
  // ------------------------------------------------------------------------

  predicate OnClock(c: Clock) {
    c.hour < 24 && c.min < 60 && c.sec < 60
  }

  /** hhmmss and a fraction, if any. */
  function TimeText(c: Clock, fraction: seq<byte>): seq<byte> {
    Padded(10000 * c.hour + 100 * c.min + c.sec, 6) + fraction
  }

  ghost predicate IsFraction(f: seq<byte>) {
    f == [] || (f[0] == '.' as int && AllDigits(f[1..]))
  }

  lemma SixDigitTime(c: Clock)
    requires OnClock(c)
    ensures ToClock(10000 * c.hour + 100 * c.min + c.sec) == c
  {
    var n := 10000 * c.hour + 100 * c.min + c.sec;
    assert n / 10000 == c.hour && n % 10000 == 100 * c.min + c.sec;
    assert n % 100 == c.sec;
  }

  lemma {:induction false} TimeIsCommaFree(d: seq<byte>, fraction: seq<byte>)
    requires AllDigits(d) && IsFraction(fraction)
    ensures CommaFree(d + fraction)
  {
    assert fraction != [] ==> fraction == [POINT] + fraction[1..];
  }

  /** Six digits and a fraction, converted to an integer. */
  lemma {:induction false} SixDigitsAreRead(n: nat, fraction: seq<byte>, rest: seq<byte>)
    requires n < 1_000_000 && IsFraction(fraction) && rest != [] && rest[0] == COMMA
    ensures ToUint32(Atof(Padded(n, 6) + fraction + rest)) == n
  {
    var text := Padded(n, 6) + fraction;
    AtofStops(text, rest);
    SixDigits(n);
    WholePart(n, 6, fraction);
    SmallUint32(Atof(text), n);
  }

  /** The time is read to the second, whatever its fraction. */
  lemma {:induction false} TimeIsRead(c: Clock, fraction: seq<byte>, rest: seq<byte>)
    requires OnClock(c) && IsFraction(fraction) && rest != [] && rest[0] == COMMA
    ensures ToClock(ToUint32(Atof(TimeText(c, fraction) + rest))) == c
  {
    SixDigitsAreRead(10000 * c.hour + 100 * c.min + c.sec, fraction, rest);
    SixDigitTime(c);
  }

  lemma SixDigits(n: nat)
    requires n < 1_000_000
    ensures n < PowerOfTen(6)
  {
    assert PowerOfTen(3) == 1000;
  }

  lemma SmallUint32(x: real, n: nat)
    requires Trunc(x) == n < 1_000_000
    ensures ToUint32(x) == n
  {
  }

  /** An empty field stands for no degrees. */
  ghost predicate HoldsCoordinate(f: seq<byte>, c: Coordinate, width: nat) {
    f == CoordinateText(c, width) || (f == [] && c == Coordinate(0, 0))
  }

  /** An empty field stands for the north or the east. */
  ghost predicate HoldsLetter(f: seq<byte>, negative: bool, positive: char, other: char) {
    f == [(if negative then other else positive) as int % 256] || (f == [] && !negative)
  }

  /** A position as a GGA sentence states it. */
  datatype Position = Position(lat: Coordinate, south: bool, lon: Coordinate, west: bool)

  predicate IsPosition(p: Position) {
    OnGlobe(p.lat) && p.lat.degrees <= 90 && OnGlobe(p.lon)
  }

  /** Field k is part n of the position: latitude, hemisphere, longitude, hemisphere. */
  ghost predicate HoldsPart(fs: seq<seq<byte>>, k: nat, n: nat, p: Position)
    requires k < |fs|
  {
    && (n == 0 ==> HoldsCoordinate(fs[k], p.lat, 2))
    && (n == 1 ==> HoldsLetter(fs[k], p.south, 'N', 'S'))
    && (n == 2 ==> HoldsCoordinate(fs[k], p.lon, 3))
    && (n == 3 ==> HoldsLetter(fs[k], p.west, 'E', 'W'))
  }

  /** Four fields hold the position. */
  ghost predicate HoldsPosition(fs: seq<seq<byte>>, i: nat, p: Position) {
    i + 4 < |fs| && forall k: nat, n: nat :: n < 4 && k == i + n ==> HoldsPart(fs, k, n, p)
  }

  lemma CoordinateIsCommaFree(c: Coordinate, width: nat)
    ensures CommaFree(CoordinateText(c, width))
  {
  }

  lemma AngleInJoin(fs: seq<seq<byte>>, i: nat, c: Coordinate, width: nat)
    requires i + 1 < |fs| && HoldsCoordinate(fs[i], c, width)
    requires 0 < width && c.degrees < PowerOfTen(width) && OnGlobe(c)
    ensures Angle(Join(fs, i), width).0 == ArcOf(c)
    ensures Next(Angle(Join(fs, i), width).1) == Done(Join(fs, i + 1))
  {
    if fs[i] == [] {
      EmptyInJoin(fs, i);
    } else {
      CoordinateIsCommaFree(c, width);
      AngleIsFixed(c, width, [COMMA] + Join(fs, i + 1));
      NextOfJoin(fs, i, width + 3);
    }
  }

  lemma EmptyInJoin(fs: seq<seq<byte>>, i: nat)
    requires i + 1 < |fs| && fs[i] == []
    ensures Here(Join(fs, i)) == COMMA && Next(Join(fs, i)) == Done(Join(fs, i + 1))
  {
    NextOfJoin(fs, i, 0);
    assert Drop(Join(fs, i), 0) == Join(fs, i);
  }

  lemma LetterInJoin(fs: seq<seq<byte>>, i: nat, negative: bool, positive: char, other: char)
    requires i + 1 < |fs| && HoldsLetter(fs[i], negative, positive, other)
    requires positive <= '~' && other <= '~' && positive != ',' && other != ',' && positive != other
    ensures Hemisphere(Join(fs, i), positive as int, other as int) == Done(negative)
    ensures Next(Join(fs, i)) == Done(Join(fs, i + 1))
  {
    NextOfJoin(fs, i, 0);
    assert Drop(Join(fs, i), 0) == Join(fs, i);
    if fs[i] == [] {
      EmptyInJoin(fs, i);
    }
  }

  lemma {:induction false} PlaceParts(fs: seq<seq<byte>>, i: nat, p: Position)
    requires IsPosition(p) && HoldsPosition(fs, i, p)
    ensures Angle(Join(fs, i), 2).0 == ArcOf(p.lat)
    ensures Next(Angle(Join(fs, i), 2).1) == Done(Join(fs, i + 1))
    ensures Hemisphere(Join(fs, i + 1), NORTH, SOUTH) == Done(p.south) && Next(Join(fs, i + 1)) == Done(Join(fs, i + 2))
    ensures Angle(Join(fs, i + 2), 3).0 == ArcOf(p.lon)
    ensures Next(Angle(Join(fs, i + 2), 3).1) == Done(Join(fs, i + 3))
    ensures Hemisphere(Join(fs, i + 3), EAST, WEST) == Done(p.west)
  {
    DegreeWidths();
    assert HoldsPart(fs, i, 0, p) && HoldsPart(fs, i + 1, 1, p);
    assert HoldsPart(fs, i + 2, 2, p) && HoldsPart(fs, i + 3, 3, p);
    AngleInJoin(fs, i, p.lat, 2);
    LetterInJoin(fs, i + 1, p.south, 'N', 'S');
    AngleInJoin(fs, i + 2, p.lon, 3);
    LetterInJoin(fs, i + 3, p.west, 'E', 'W');
  }

  lemma {:induction false} PlaceIsRead(fs: seq<seq<byte>>, i: nat, p: Position)
    requires IsPosition(p) && HoldsPosition(fs, i, p)
    ensures ReadPlace(Join(fs, i)) == Done(Place(ArcOf(p.lat), p.south, ArcOf(p.lon), p.west, Join(fs, i + 3)))
  {
    PlaceParts(fs, i, p);
    PlaceForm(Join(fs, i), ArcOf(p.lat), Join(fs, i + 1), p.south,
              Join(fs, i + 2), ArcOf(p.lon), Join(fs, i + 3), p.west);
  }

  lemma DegreeWidths()
    ensures PowerOfTen(2) == 100 && PowerOfTen(3) == 1000
  {
  }

  lemma {:induction false} PlaceForm(t: seq<byte>, lat: Arc, t2: seq<byte>, south: bool,
                                     t3: seq<byte>, lon: Arc, t5: seq<byte>, west: bool)
    requires Angle(t, 2).0 == lat && Next(Angle(t, 2).1) == Done(t2)
    requires Hemisphere(t2, NORTH, SOUTH) == Done(south) && Next(t2) == Done(t3)
    requires Angle(t3, 3).0 == lon && Next(Angle(t3, 3).1) == Done(t5)
    requires Hemisphere(t5, EAST, WEST) == Done(west)
    ensures ReadPlace(t) == Done(Place(lat, south, lon, west, t5))
  {
  }

  lemma {:induction false} TimeInJoin(fs: seq<seq<byte>>, i: nat, c: Clock, fraction: seq<byte>)
    requires i + 1 < |fs| && fs[i] == TimeText(c, fraction)
    requires OnClock(c) && IsFraction(fraction)
    ensures ToClock(ToUint32(Atof(Join(fs, i)))) == c
    ensures Next(Join(fs, i)) == Done(Join(fs, i + 1))
  {
    TimeIsRead(c, fraction, [COMMA] + Join(fs, i + 1));
    TimeIsCommaFree(Padded(10000 * c.hour + 100 * c.min + c.sec, 6), fraction);
    NextOfJoin(fs, i, 0);
    assert Drop(Join(fs, i), 0) == Join(fs, i);
  }

  lemma {:induction false} NumberInJoin(fs: seq<seq<byte>>, i: nat)
    requires i + 1 < |fs| && CommaFree(fs[i])
    ensures (if Here(Join(fs, i)) == COMMA then 0.0 else Atof(Join(fs, i))) == Atof(fs[i])
  {
    var rest := [COMMA] + Join(fs, i + 1);
    AtofStops(fs[i], rest);
    if fs[i] == [] {
      assert Join(fs, i) == rest;
      assert Signed(fs[i]) == (false, []) && Atof(fs[i]) == 0.0;
    } else {
      assert Here(Join(fs, i)) == fs[i][0];
    }
  }

  /** A GGA sentence: the time, the position, and what follows it; the altitude is the tenth field. */
  ghost predicate IsGga(fs: seq<seq<byte>>, c: Clock, fraction: seq<byte>, p: Position) {
    && |fs| > 11 && AllCommaFree(fs) && fs[0] == Ascii("$GPGGA")
    && OnClock(c) && IsFraction(fraction) && fs[1] == TimeText(c, fraction)
    && IsPosition(p) && HoldsPosition(fs, 2, p)
  }

  /** Time, position and altitude are read from the sentence as they were printed. */
  lemma {:induction false} GgaRoundTrip(fs: seq<seq<byte>>, c: Clock, fraction: seq<byte>, p: Position)
    requires IsGga(fs, c, fraction, p)
    ensures ReadGga(Join(fs, 0)) == Done(Fix(Atof(fs[9]), Degrees(p.lat, p.south), Degrees(p.lon, p.west), c))
  {
    GgaTime(fs, c, fraction, p);
    GgaPlace(fs, c, fraction, p);
    GgaAltitude(fs);
    var place := Place(ArcOf(p.lat), p.south, ArcOf(p.lon), p.west, Join(fs, 5));
    ArcIsFixed(p.lat, p.south);
    ArcIsFixed(p.lon, p.west);
    GgaForm(Join(fs, 0), Join(fs, 1), Join(fs, 2), place, Join(fs, 9), Join(fs, 11), Atof(fs[9]), c);
  }

  lemma {:induction false} GgaTime(fs: seq<seq<byte>>, c: Clock, fraction: seq<byte>, p: Position)
    requires IsGga(fs, c, fraction, p)
    ensures NextField(Join(fs, 0), 1) == Done(Join(fs, 1)) && Next(Join(fs, 1)) == Done(Join(fs, 2))
    ensures ToClock(ToUint32(Atof(Join(fs, 1)))) == c
  {
    NextFieldOfJoin(fs, 0, 1);
    TimeInJoin(fs, 1, c, fraction);
  }

  lemma {:induction false} GgaPlace(fs: seq<seq<byte>>, c: Clock, fraction: seq<byte>, p: Position)
    requires IsGga(fs, c, fraction, p)
    ensures ReadPlace(Join(fs, 2)) == Done(Place(ArcOf(p.lat), p.south, ArcOf(p.lon), p.west, Join(fs, 5)))
  {
    PlaceIsRead(fs, 2, p);
  }

  lemma {:induction false} GgaAltitude(fs: seq<seq<byte>>)
    requires |fs| > 11 && AllCommaFree(fs)
    ensures NextField(Join(fs, 5), 4) == Done(Join(fs, 9)) && NextField(Join(fs, 9), 2) == Done(Join(fs, 11))
    ensures (if Here(Join(fs, 9)) == COMMA then 0.0 else Atof(Join(fs, 9))) == Atof(fs[9])
  {
    NextFieldOfJoin(fs, 5, 4);
    NextFieldOfJoin(fs, 9, 2);
    NumberInJoin(fs, 9);
  }

  lemma {:induction false} GgaForm(s: seq<byte>, t1: seq<byte>, t2: seq<byte>, place: Place, t3: seq<byte>, t4: seq<byte>,
                                   alt: real, c: Clock)
    requires NextField(s, 1) == Done(t1) && Next(t1) == Done(t2) && ReadPlace(t2) == Done(place)
    requires NextField(place.rest, 4) == Done(t3) && NextField(t3, 2) == Done(t4)
    requires (if Here(t3) == COMMA then 0.0 else Atof(t3)) == alt && ToClock(ToUint32(Atof(t1))) == c
    ensures ReadGga(s) == Done(Fix(alt, ToDegrees(place.south, place.lat), ToDegrees(place.west, place.lon), c))
  {
    OneField(s);
  }

  lemma OneField(s: seq<byte>)
    ensures NextField(s, 1) == Next(s)
  {
    assert Next(s).Done? ==> NextField(Next(s).value, 0) == Next(s);
  }

  /** An altitude in tenths of a metre. */
  function AltitudeText(tenths: int): seq<byte> {
    var n := if tenths < 0 then -tenths else tenths;
    (if tenths < 0 then ['-' as int] else []) + (Digits(n / 10) + (['.' as int] + [48 + n % 10]))
  }

  lemma EmptyIsZero()
    ensures Atof([]) == 0.0
  {
    assert Signed([]) == (false, []);
  }

  lemma {:induction false} TenthsAreRead(n: nat)
    ensures var u := Digits(n / 10) + ([POINT] + [48 + n % 10]);
            Signed(u) == (false, u) && Atof(u) == n as real / 10.0
  {
    var whole, last := Digits(n / 10), [48 + n % 10];
    var u := whole + ([POINT] + last);
    assert u[0] == whole[0];
    DigitsRoundTrip(n / 10, [POINT] + last);
    assert ([POINT] + last)[1..] == last;
    assert last[1..] == [] && ParseDigits(n % 10, []) == (n % 10, []);
    assert ParseDigits(0, last) == (n % 10, []);
    assert PowerOfTen(1) == 10 * PowerOfTen(0) == 10;
  }

  /** Altitudes are read to the tenth, below sea level too. */
  lemma {:induction false} AltitudeIsRead(tenths: int)
    ensures Atof(AltitudeText(tenths)) == tenths as real / 10.0
  {
    var n := if tenths < 0 then -tenths else tenths;
    var u := Digits(n / 10) + ([POINT] + [48 + n % 10]);
    TenthsAreRead(n);
    if tenths < 0 {
      assert ([MINUS] + u)[1..] == u;
      SignIsRead(u);
    } else {
      assert [] + u == u;
    }
  }

  lemma SignIsRead(u: seq<byte>)
    requires Signed(u) == (false, u)
    ensures Atof([MINUS] + u) == -Atof(u)
  {
    var t := [MINUS] + u;
    assert t[1..] == u && SkipBlanks(t) == t;
  }

  /** An RMC sentence: time, status, position, two more fields, and the date as ddmmyy. */
  ghost predicate IsRmc(fs: seq<seq<byte>>, c: Clock, fraction: seq<byte>, p: Position, date: Calendar) {
    && |fs| > 10 && AllCommaFree(fs) && fs[0] == Ascii("$GPRMC")
    && OnClock(c) && IsFraction(fraction) && fs[1] == TimeText(c, fraction)
    && (fs[2] == ['A' as int] || fs[2] == ['V' as int])
    && IsPosition(p) && HoldsPosition(fs, 3, p)
    && HoldsDate(fs[9], date)
  }

  /** An empty field stands for zeros. */
  ghost predicate HoldsDate(f: seq<byte>, d: Calendar) {
    (IsDate(d) && f == Padded(10000 * d.day + 100 * d.month + d.year, 6)) || (f == [] && d == Calendar(0, 0, 0))
  }

  /** Day, month and year of the century. */
  predicate IsDate(d: Calendar) {
    1 <= d.day <= 31 && 1 <= d.month <= 12 && d.year < 100
  }

  lemma SixDigitDate(d: Calendar)
    requires IsDate(d)
    ensures ToCalendar(10000 * d.day + 100 * d.month + d.year) == d
  {
    var n := 10000 * d.day + 100 * d.month + d.year;
    assert n / 10000 == d.day && n % 10000 == 100 * d.month + d.year;
    assert n % 100 == d.year;
  }

  function DateHere(t: seq<byte>): Calendar {
    if Here(t) == COMMA then Calendar(0, 0, 0) else ToCalendar(ToUint32(Atof(t)))
  }

  lemma {:induction false} DateInJoin(fs: seq<seq<byte>>, i: nat, d: Calendar)
    requires i + 1 < |fs| && HoldsDate(fs[i], d)
    ensures DateHere(Join(fs, i)) == d
  {
    if fs[i] == [] {
      EmptyInJoin(fs, i);
    } else {
      SixDigitsAreRead(10000 * d.day + 100 * d.month + d.year, [], [COMMA] + Join(fs, i + 1));
      assert fs[i] + [] == fs[i];
      SixDigitDate(d);
      assert Join(fs, i)[0] == fs[i][0] && IsDigit(fs[i][0]);
    }
  }

  lemma {:induction false} RmcForm(s: seq<byte>, t1: seq<byte>, t2: seq<byte>, t3: seq<byte>, place: Place, t4: seq<byte>,
                                   d: Calendar, c: Clock)
    requires NextField(s, 1) == Done(t1) && Next(t1) == Done(t2) && (Here(t2) == ACTIVE || Here(t2) == VOID)
    requires NextField(t2, 1) == Done(t3) && ReadPlace(t3) == Done(place) && NextField(place.rest, 3) == Done(t4)
    requires DateHere(t4) == d && ToClock(ToUint32(Atof(t1))) == c
    ensures ReadRmc(s) == Done(Date(d, c))
  {
    OneField(s);
    OneField(t2);
  }

  /** Time and date are read from an RMC sentence as they were printed. */
  lemma {:induction false} RmcRoundTrip(fs: seq<seq<byte>>, c: Clock, fraction: seq<byte>, p: Position, d: Calendar)
    requires IsRmc(fs, c, fraction, p, d)
    ensures ReadRmc(Join(fs, 0)) == Done(Date(d, c))
  {
    RmcTime(fs, c, fraction, p, d);
    RmcPlace(fs, c, fraction, p, d);
    RmcDate(fs, c, fraction, p, d);
    var place := Place(ArcOf(p.lat), p.south, ArcOf(p.lon), p.west, Join(fs, 6));
    RmcForm(Join(fs, 0), Join(fs, 1), Join(fs, 2), Join(fs, 3), place, Join(fs, 9), d, c);
  }

  lemma {:induction false} RmcTime(fs: seq<seq<byte>>, c: Clock, fraction: seq<byte>, p: Position, d: Calendar)
    requires IsRmc(fs, c, fraction, p, d)
    ensures NextField(Join(fs, 0), 1) == Done(Join(fs, 1)) && Next(Join(fs, 1)) == Done(Join(fs, 2))
    ensures ToClock(ToUint32(Atof(Join(fs, 1)))) == c
    ensures Here(Join(fs, 2)) == ACTIVE || Here(Join(fs, 2)) == VOID
  {
    NextFieldOfJoin(fs, 0, 1);
    TimeInJoin(fs, 1, c, fraction);
    assert Join(fs, 2)[0] == fs[2][0];
  }

  lemma {:induction false} RmcPlace(fs: seq<seq<byte>>, c: Clock, fraction: seq<byte>, p: Position, d: Calendar)
    requires IsRmc(fs, c, fraction, p, d)
    ensures NextField(Join(fs, 2), 1) == Done(Join(fs, 3))
    ensures ReadPlace(Join(fs, 3)) == Done(Place(ArcOf(p.lat), p.south, ArcOf(p.lon), p.west, Join(fs, 6)))
  {
    NextFieldOfJoin(fs, 2, 1);
    PlaceIsRead(fs, 3, p);
  }

  lemma {:induction false} RmcDate(fs: seq<seq<byte>>, c: Clock, fraction: seq<byte>, p: Position, d: Calendar)
    requires IsRmc(fs, c, fraction, p, d)
    ensures NextField(Join(fs, 6), 3) == Done(Join(fs, 9))
    ensures DateHere(Join(fs, 9)) == d
  {
    NextFieldOfJoin(fs, 6, 3);
    DateInJoin(fs, 9, d);
  }

  // ------------------------------------------------------------------------
  // Checksums
  // ------------------------------------------------------------------------

  lemma SentenceNames()
    ensures GGA == Ascii("$GPGGA") && RMC == Ascii("$GPRMC")
  {
  }

  /** In a line that ends with CR and LF the checksum is not where it is looked for. */
  lemma {:induction false} LineEndHidesChecksum(body: seq<byte>, h1: byte, h2: byte)
    requires h1 != '*' as int
    ensures var s := body + ['*' as int, h1, h2, 13, 10]; !HasChecksum(s) && ParseSentence(s) == Fields(s)
  {
    var s := body + ['*' as int, h1, h2, 13, 10];
    assert s[|s| - 4] == h1;
  }

  /** A GGA line is taken with its time, position and altitude, whatever its checksum says. */
  lemma {:induction false} GgaLineIsTaken(fs: seq<seq<byte>>, c: Clock, fraction: seq<byte>, p: Position, tenths: int,
                                          body: seq<byte>, h1: byte, h2: byte)
    requires IsGga(fs, c, fraction, p) && (fs[9] == AltitudeText(tenths) || (fs[9] == [] && tenths == 0))
    requires Join(fs, 0) == body + ['*' as int, h1, h2, 13, 10] && h1 != '*' as int
    ensures ParseSentence(Join(fs, 0))
         == Located(Fix(tenths as real / 10.0, Degrees(p.lat, p.south), Degrees(p.lon, p.west), c))
  {
    var s := Join(fs, 0);
    LineEndHidesChecksum(body, h1, h2);
    GgaRoundTrip(fs, c, fraction, p);
    AltitudeIsRead(tenths);
    EmptyIsZero();
    SentenceNames();
    assert OccursAt(s, GGA, 0);
    FirstIs(s, GGA, 0, 0);
  }

  /** An RMC line that nowhere names the other sentence is taken with its time and date. */
  lemma {:induction false} RmcLineIsTaken(fs: seq<seq<byte>>, c: Clock, fraction: seq<byte>, p: Position, d: Calendar,
                                          body: seq<byte>, h1: byte, h2: byte)
    requires IsRmc(fs, c, fraction, p, d) && !Contains(Join(fs, 0), Ascii("$GPGGA"))
    requires Join(fs, 0) == body + ['*' as int, h1, h2, 13, 10] && h1 != '*' as int
    ensures ParseSentence(Join(fs, 0)) == Dated(Date(d, c))
  {
    var s := Join(fs, 0);
    LineEndHidesChecksum(body, h1, h2);
    RmcRoundTrip(fs, c, fraction, p, d);
    SentenceNames();
    assert OccursAt(s, RMC, 0);
    FirstIs(s, RMC, 0, 0);
    FirstIsFirst(s, GGA, 0);
  }

  lemma {:induction false} XorIsInjective(x: nat, y: nat, a: nat)
    ensures Xor(x, a) == Xor(y, a) <==> x == y
    ensures Xor(a, x) == Xor(a, y) <==> x == y
  {
    if Xor(a, x) == Xor(a, y) {
      XorCancels(a, x);
      XorCancels(a, y);
    }
    if Xor(x, a) == Xor(y, a) {
      XorCancelsBehind(x, a);
      XorCancelsBehind(y, a);
    }
  }

  lemma XorCancels(a: nat, x: nat)
    ensures Xor(a, Xor(a, x)) == x
  {
    XorIsAssociative(a, a, x);
    XorIsZeroIff(a, a);
  }

  lemma XorCancelsBehind(x: nat, a: nat)
    ensures Xor(Xor(x, a), a) == x
  {
    XorIsAssociative(x, a, a);
    XorIsZeroIff(a, a);
  }

  lemma {:induction false} XorAfterChange(s: seq<byte>, n: nat, i: nat, v: byte)
    requires i < n <= |s| && 2 <= i && v != s[i]
    ensures XorTo(0, s[i := v], n) != XorTo(0, s, n)
    decreases n
  {
    if i == n - 1 {
      XorBefore(s, i, i, v);
      XorIsInjective(s[i], v, XorTo(0, s, i));
    } else {
      XorAfterChange(s, n - 1, i, v);
      XorIsInjective(XorTo(0, s, n - 1), XorTo(0, s[i := v], n - 1), s[n - 1]);
    }
  }

  lemma {:induction false} XorBefore(s: seq<byte>, n: nat, i: nat, v: byte)
    requires n <= i < |s|
    ensures XorTo(0, s[i := v], n) == XorTo(0, s, n)
  {
    if n > 2 {
      XorBefore(s, n - 1, i, v);
    }
  }

  /** Where the checksum is examined, a change of any one byte it covers is caught. */
  lemma {:induction false} OneByteChangeIsCaught(s: seq<byte>, i: nat, v: byte)
    requires HasChecksum(s) && ChecksumHolds(s) && |s| - 4 < UINT8
    requires 2 <= i < |s| - 4 && v != s[i]
    ensures ParseSentence(s[i := v]) == BadChecksum
  {
    XorAfterChange(s, |s| - 4, i, v);
  }

  /**
   By NMEA 0183 the sum starts at the second byte, behind the dollar sign. A sentence right by that is
   refused wherever the checksum is examined, since the second byte is left out there.
   */
  lemma {:induction false} StandardChecksumIsRefused(s: seq<byte>)
    requires HasChecksum(s) && NulFree(s) && 2 <= |s| - 4 < UINT8
    requires XorTo(s[1], s, |s| - 4) == StatedChecksum(s)
    ensures ParseSentence(s) == BadChecksum
  {
    var sum := XorTo(0, s, |s| - 4);
    XorFromStart(s[1], s, |s| - 4);
    XorIsInjective(s[1], 0, sum);
  }
}
