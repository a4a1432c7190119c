/** Which sentences are refused, which lead out of bounds, and what a checksum decides. */
module NmeaRefusal {
  import opened Bytes
  import opened Numerals
  import opened Nmea
  import opened NmeaRoundTrip

  // ------------------------------------------------------------------------
  // Fields that run out
  // ------------------------------------------------------------------------

  lemma {:induction false} NoNext(f: seq<byte>)
    requires CommaFree(f)
    ensures Next(f) == Undefined
  {
    if f != [] {
      NoNext(f[1..]);
    }
  }

  /** From anywhere in a field that is long enough, the cursor moves to the next field if there is one. */
  lemma {:induction false} NextOrUndefined(fs: seq<seq<byte>>, i: nat, n: nat)
    requires i < |fs| && CommaFree(fs[i]) && n <= |fs[i]|
    ensures Next(Drop(Join(fs, i), n)) == if i + 1 < |fs| then Done(Join(fs, i + 1)) else Undefined
  {
    if i + 1 < |fs| {
      NextOfJoin(fs, i, n);
    } else {
      NoNext(fs[i][n..]);
    }
  }

  lemma {:induction false} NextFieldOrUndefined(fs: seq<seq<byte>>, i: nat, n: nat)
    requires i < |fs| && AllCommaFree(fs)
    ensures NextField(Join(fs, i), n) == if i + n < |fs| then Done(Join(fs, i + n)) else Undefined
    decreases n
  {
    if n > 0 {
      NextOrUndefined(fs, i, 0);
      assert Drop(Join(fs, i), 0) == Join(fs, i);
      if i + 1 < |fs| {
        NextFieldOrUndefined(fs, i + 1, n - 1);
      }
    }
  }

  // ------------------------------------------------------------------------
  // Refusals
  // ------------------------------------------------------------------------

  /** A coordinate field the parser does not read beyond: empty, or with its degrees, minutes and point. */
  ghost predicate Holds(f: seq<byte>, width: nat) {
    f == [] || |f| >= width + 3
  }

  /** A field that is empty or begins with one of these letters. */
  ghost predicate BeginsWith(f: seq<byte>, a: char, b: char) {
    f != [] ==> f[0] == a as int || f[0] == b as int
  }

  lemma AngleStays(fs: seq<seq<byte>>, i: nat, width: nat)
    requires i + 1 < |fs| && CommaFree(fs[i]) && Holds(fs[i], width)
    ensures Next(Angle(Join(fs, i), width).1) == Done(Join(fs, i + 1))
  {
    if fs[i] == [] {
      EmptyInJoin(fs, i);
    } else {
      var t := Join(fs, i);
      assert Here(t) == fs[i][0] && Drop(Drop(t, width), 3) == Drop(t, width + 3);
      NextOfJoin(fs, i, width + 3);
    }
  }

  lemma LetterDecides(fs: seq<seq<byte>>, i: nat, positive: char, other: char)
    requires i + 1 < |fs| && CommaFree(fs[i]) && positive <= '~' && other <= '~'
    ensures Hemisphere(Join(fs, i), positive as int, other as int).Done? <==> BeginsWith(fs[i], positive, other)
    ensures !Hemisphere(Join(fs, i), positive as int, other as int).Undefined?
    ensures Next(Join(fs, i)) == Done(Join(fs, i + 1))
  {
    NextOfJoin(fs, i, 0);
    assert Drop(Join(fs, i), 0) == Join(fs, i);
    if fs[i] == [] {
      EmptyInJoin(fs, i);
    } else {
      assert Here(Join(fs, i)) == fs[i][0];
    }
  }

  /** The four fields of a position, of the right length and without commas. */
  ghost predicate HasPlace(fs: seq<seq<byte>>, i: nat) {
    && i + 4 < |fs| && AllCommaFree(fs)
    && Holds(fs[i], 2) && Holds(fs[i + 2], 3)
  }

  ghost predicate LettersOk(fs: seq<seq<byte>>, i: nat)
    requires i + 4 < |fs|
  {
    BeginsWith(fs[i + 1], 'N', 'S') && BeginsWith(fs[i + 3], 'E', 'W')
  }

  lemma {:induction false} PlaceOutcome(fs: seq<seq<byte>>, i: nat)
    requires HasPlace(fs, i)
    ensures ReadPlace(Join(fs, i)) == Refused <==> !LettersOk(fs, i)
    ensures LettersOk(fs, i) ==> ReadPlace(Join(fs, i)).Done? && ReadPlace(Join(fs, i)).value.rest == Join(fs, i + 3)
  {
    AngleStays(fs, i, 2);
    LetterDecides(fs, i + 1, 'N', 'S');
    AngleStays(fs, i + 2, 3);
    LetterDecides(fs, i + 3, 'E', 'W');
  }

  /**
   A GGA sentence is refused if and only if one of its hemispheres is another letter. Otherwise it is read
   if it has twelve fields, and leads out of bounds if it has fewer.
   */
  lemma {:induction false} GgaIsRefusedIff(fs: seq<seq<byte>>)
    requires HasPlace(fs, 2)
    ensures ReadGga(Join(fs, 0)) == Refused <==> !(BeginsWith(fs[3], 'N', 'S') && BeginsWith(fs[5], 'E', 'W'))
    ensures ReadGga(Join(fs, 0)).Done? <==> BeginsWith(fs[3], 'N', 'S') && BeginsWith(fs[5], 'E', 'W') && |fs| >= 12
  {
    TwoFields(fs);
    PlaceOutcome(fs, 2);
    NextFieldOrUndefined(fs, 5, 4);
    if 9 < |fs| {
      NextFieldOrUndefined(fs, 9, 2);
    }
  }

  lemma {:induction false} TwoFields(fs: seq<seq<byte>>)
    requires |fs| > 2 && AllCommaFree(fs)
    ensures ReadTime(Join(fs, 0)).Done? && ReadTime(Join(fs, 0)).value.1 == Join(fs, 2)
  {
    NextFieldOfJoin(fs, 0, 1);
    NextFieldOfJoin(fs, 1, 1);
    OneField(Join(fs, 0));
    OneField(Join(fs, 1));
  }

  /** The status of an RMC sentence. */
  ghost predicate HasStatus(fs: seq<seq<byte>>)
    requires |fs| > 2
  {
    fs[2] != [] && BeginsWith(fs[2], 'A', 'V')
  }

  lemma StatusDecides(fs: seq<seq<byte>>)
    requires |fs| > 3 && AllCommaFree(fs)
    ensures Here(Join(fs, 2)) == ACTIVE || Here(Join(fs, 2)) == VOID <==> HasStatus(fs)
    ensures Next(Join(fs, 2)) == Done(Join(fs, 3))
  {
    LetterDecides(fs, 2, 'A', 'V');
    if fs[2] == [] {
      EmptyInJoin(fs, 2);
    } else {
      assert Here(Join(fs, 2)) == fs[2][0];
    }
  }

  /**
   An RMC sentence is refused if and only if its status is not A or V or one of its hemispheres is another
   letter. Otherwise it is read if it has ten fields, and leads out of bounds if it has fewer.
   */
  lemma {:induction false} RmcIsRefusedIff(fs: seq<seq<byte>>)
    requires HasPlace(fs, 3)
    ensures ReadRmc(Join(fs, 0)) == Refused
       <==> !(HasStatus(fs) && BeginsWith(fs[4], 'N', 'S') && BeginsWith(fs[6], 'E', 'W'))
    ensures ReadRmc(Join(fs, 0)).Done?
       <==> HasStatus(fs) && BeginsWith(fs[4], 'N', 'S') && BeginsWith(fs[6], 'E', 'W') && |fs| >= 10
  {
    TwoFields(fs);
    StatusDecides(fs);
    PlaceOutcome(fs, 3);
    NextFieldOrUndefined(fs, 6, 3);
  }

  // ------------------------------------------------------------------------
  // What a checksum decides
  // ------------------------------------------------------------------------

  /** printf's %X on one digit. */
  function UpperHex(n: nat): byte
    requires n < 16
  {
    "0123456789ABCDEF"[n] as int % 256
  }

  lemma HexIsRead(n: nat)
    requires n < 16
    ensures ParseHex(UpperHex(n)) == n
  {
  }

  /**
   With a star and two digits where they are looked for, the sentence is read for its fields if and only if
   the digits state the exclusive or of the bytes from the third one on.
   */
  lemma {:induction false} ChecksumDecides(body: seq<byte>, n: nat, last: byte)
    requires 2 <= |body| < 256 && n < 256
    ensures var s := body + ['*' as int, UpperHex(n / 16), UpperHex(n % 16), last];
            ParseSentence(s) == if XorTo(0, body, |body|) == n then Fields(s) else BadChecksum
  {
    var s := body + ['*' as int, UpperHex(n / 16), UpperHex(n % 16), last];
    HexIsRead(n / 16);
    HexIsRead(n % 16);
    XorOfBeginning(body, s, |body|);
    assert HasChecksum(s) && StatedChecksum(s) == 16 * (n / 16) + n % 16 == n;
  }

  lemma {:induction false} XorOfBeginning(a: seq<byte>, s: seq<byte>, n: nat)
    requires n <= |a| <= |s| && a == s[..|a|]
    ensures XorTo(0, a, n) == XorTo(0, s, n)
  {
    if n > 2 {
      XorOfBeginning(a, s, n - 1);
    }
  }
}
