/**
 The particulate-matter sensor (main/pm_if.c): packets from the UART are checked and added up, a poll
 takes the mean and starts over, and a timer drops sums that have gone stale. Sums are exact.
 */
module PmSensor {
  import opened Bytes

  const BUF_SIZE := 144
  const PM_PKT_LEN := 24
  const PKT_PM1_HIGH := 4
  const PKT_PM2_5_HIGH := 6
  const PKT_PM10_HIGH := 8
  const UINT16 := 0x1_0000
  const UINT32 := 0x1_0000_0000

  // ------------------------------------------------------------------------
  // Packets
  // ------------------------------------------------------------------------

  function SumTo(b: seq<byte>, n: nat): (sum: nat)
    requires n <= |b|
    ensures sum <= 255 * n
  {
    if n == 0 then 0 else SumTo(b, n - 1) + b[n - 1]
  }

  function Word(b: seq<byte>, high: nat): (w: nat)
    requires high + 1 < |b|
    ensures w < UINT16
  {
    256 * (b[high] as int) + b[high + 1] as int
  }

  lemma SmallModulo(n: nat, m: nat)
    requires n < m
    ensures n % m == n
  {
  }

  /** A whole packet: its marker, and the sum of its first 22 bytes in its last two. */
  predicate Accepted(b: seq<byte>) {
    && |b| == PM_PKT_LEN
    && b[0] == 'B' as int && b[1] == 'M' as int
    && SumTo(b, PM_PKT_LEN - 2) == Word(b, PM_PKT_LEN - 2)
  }

  lemma {:induction false} SumAfterChange(b: seq<byte>, n: nat, i: nat, v: byte)
    requires n <= |b| && i < |b|
    ensures SumTo(b[i := v], n) == SumTo(b, n) + (if i < n then v - b[i] else 0)
  {
    if n > 0 {
      SumAfterChange(b, n - 1, i, v);
    }
  }

  /** A valid packet with any one byte changed is not accepted. */
  lemma {:induction false} OneByteChangeIsRejected(b: seq<byte>, i: nat, v: byte)
    requires Accepted(b) && i < |b| && v != b[i]
    ensures !Accepted(b[i := v])
  {
    SumAfterChange(b, PM_PKT_LEN - 2, i, v);
  }

  // ------------------------------------------------------------------------
  // State, and what each event makes of it
  // ------------------------------------------------------------------------

  datatype Reading = Reading(pm1: real, pm25: real, pm10: real)

  const NO_READING := Reading(-1.0, -1.0, -1.0)
  const ZERO := Reading(0.0, 0.0, 0.0)

  datatype Pm = Pm(sums: Reading, sampleCount: nat, timer: bool)

  function Values(b: seq<byte>): Reading
    requires |b| == PM_PKT_LEN
  {
    Reading(Word(b, PKT_PM1_HIGH) as real, Word(b, PKT_PM2_5_HIGH) as real, Word(b, PKT_PM10_HIGH) as real)
  }

  function Add(x: Reading, y: Reading): Reading {
    Reading(x.pm1 + y.pm1, x.pm25 + y.pm25, x.pm10 + y.pm10)
  }

  function Divide(x: Reading, n: nat): Reading
    requires n > 0
  {
    Reading(x.pm1 / n as real, x.pm25 / n as real, x.pm10 / n as real)
  }

  datatype Event = Data(bytes: seq<byte>) | Timeout | Poll

  function OnData(s: Pm, b: seq<byte>): Pm {
    if Accepted(b) then Pm(Add(s.sums, Values(b)), (s.sampleCount + 1) % UINT32, true) else s
  }

  /** A stopped timer does not fire. */
  function OnTimeout(s: Pm): Pm {
    if s.timer then Pm(ZERO, 0, false) else s
  }

  function OnPoll(s: Pm): Pm {
    if s.sampleCount == 0 then s else s.(sums := ZERO, sampleCount := 0)
  }

  /** What a poll reports; None is the error return. */
  function Polled(s: Pm): Option<Reading> {
    if s.sampleCount == 0 then None else Some(Divide(s.sums, s.sampleCount))
  }

  function Step(s: Pm, e: Event): Pm {
    match e
    case Data(b) => OnData(s, b)
    case Timeout => OnTimeout(s)
    case Poll => OnPoll(s)
  }

  const START := Pm(ZERO, 0, true)

  /** The state after a history. */
  function After(h: seq<Event>): Pm {
    if h == [] then START else Step(After(h[..|h| - 1]), h[|h| - 1])
  }

  // ------------------------------------------------------------------------
  // What a poll returns, told from the history alone
  // ------------------------------------------------------------------------

  /** The valid packets since the last timeout or successful poll. */
  function Recent(h: seq<Event>): seq<seq<byte>> {
    if h == [] then [] else
      var before := Recent(h[..|h| - 1]);
      match h[|h| - 1]
      case Data(b) => if Accepted(b) then before + [b] else before
      case Timeout => []
      case Poll => if |before| % UINT32 == 0 then before else []
  }

  function Total(ps: seq<seq<byte>>): Reading
    requires AllAccepted(ps)
    decreases |ps|
  {
    if ps == [] then ZERO
    else
      var last := ps[|ps| - 1];
      assert Accepted(last);
      Add(Total(ps[..|ps| - 1]), Values(last))
  }

  ghost predicate AllAccepted(ps: seq<seq<byte>>) {
    forall i :: 0 <= i < |ps| ==> Accepted(ps[i])
  }

  /** The state accounts for exactly these packets, and none of them waits without a running timer. */
  ghost predicate Accounts(s: Pm, ps: seq<seq<byte>>) {
    AllAccepted(ps) && s.sums == Total(ps) && s.sampleCount == |ps| % UINT32 && (ps != [] ==> s.timer)
  }

  lemma AccountsNext(s: Pm, ps: seq<seq<byte>>, b: seq<byte>)
    requires Accounts(s, ps) && Accepted(b)
    ensures Accounts(OnData(s, b), ps + [b])
  {
    assert (ps + [b])[..|ps|] == ps;
  }

  /** The sums and the count are those of the recent packets, and no packet waits without a running timer. */
  lemma {:induction false} StateIsHistory(h: seq<Event>)
    ensures Accounts(After(h), Recent(h))
  {
    if h != [] {
      var before := h[..|h| - 1];
      StateIsHistory(before);
      if h[|h| - 1].Data? && Accepted(h[|h| - 1].bytes) {
        AccountsNext(After(before), Recent(before), h[|h| - 1].bytes);
      }
    }
  }

  /** What the packets state at a position and the one behind it, high byte first, added up. */
  function Sum(ps: seq<seq<byte>>, at: nat): nat
    requires at + 1 < 24 && forall i :: 0 <= i < |ps| ==> |ps[i]| == 24
    decreases |ps|
  {
    if ps == [] then 0
    else
      var last := ps[|ps| - 1];
      assert |last| == 24;
      Sum(ps[..|ps| - 1], at) + (256 * (last[at] as int) + last[at + 1] as int)
  }

  /** A packet is 24 bytes, begins with BM, and ends with the sum of the 22 bytes before. */
  lemma AcceptedMeans(b: seq<byte>)
    ensures Accepted(b) <==> |b| == 24 && b[0] == 66 && b[1] == 77 && SumTo(b, 22) == 256 * (b[22] as int) + b[23] as int
  {
  }

  lemma {:induction false} TotalIsSum(ps: seq<seq<byte>>)
    requires AllAccepted(ps)
    ensures forall i :: 0 <= i < |ps| ==> |ps[i]| == 24
    ensures Total(ps) == Reading(Sum(ps, 4) as real, Sum(ps, 6) as real, Sum(ps, 8) as real)
    decreases |ps|
  {
    assert forall i :: 0 <= i < |ps| ==> Accepted(ps[i]);
    if ps != [] {
      var before, last := ps[..|ps| - 1], ps[|ps| - 1];
      TotalIsSum(before);
      assert Total(ps) == Add(Total(before), Values(last));
    }
  }

  /** A reading times a number is the three sums of these packets: PM1 in bytes 4 and 5, PM2.5 in 6 and 7, PM10 in 8 and 9. */
  ghost predicate IsMean(r: Reading, ps: seq<seq<byte>>) {
    && (forall i :: 0 <= i < |ps| ==> |ps[i]| == 24)
    && IsQuotient(r.pm1, Sum(ps, 4), |ps|) && IsQuotient(r.pm25, Sum(ps, 6), |ps|) && IsQuotient(r.pm10, Sum(ps, 8), |ps|)
  }

  ghost predicate IsQuotient(q: real, sum: nat, n: nat) {
    q * n as real == sum as real
  }

  lemma MeanOfPackets(ps: seq<seq<byte>>)
    requires AllAccepted(ps) && ps != []
    ensures IsMean(Divide(Total(ps), |ps|), ps)
  {
    TotalIsSum(ps);
    DivideMeans(Sum(ps, 4), Sum(ps, 6), Sum(ps, 8), |ps|);
  }

  /** A poll fails if and only if there is nothing to report. Otherwise it reports the mean of the recent packets. */
  lemma {:induction false} PollIsMean(h: seq<Event>)
    requires |Recent(h)| < 0x1_0000_0000
    ensures Polled(After(h)).None? <==> Recent(h) == []
    ensures Recent(h) != [] ==> IsMean(Polled(After(h)).value, Recent(h))
  {
    StateIsHistory(h);
    PollOfPackets(After(h), Recent(h));
    if Recent(h) != [] {
      MeanOfPackets(Recent(h));
    }
  }

  lemma DivideMeans(x1: nat, x25: nat, x10: nat, n: nat)
    requires n > 0
    ensures var r := Divide(Reading(x1 as real, x25 as real, x10 as real), n);
            IsQuotient(r.pm1, x1, n) && IsQuotient(r.pm25, x25, n) && IsQuotient(r.pm10, x10, n)
  {
  }

  lemma PollOfPackets(s: Pm, ps: seq<seq<byte>>)
    requires Accounts(s, ps) && |ps| < UINT32
    ensures Polled(s) == if ps == [] then None else Some(Divide(Total(ps), |ps|))
  {
    SmallModulo(|ps|, UINT32);
  }

  /** Where the counter has wrapped to zero, a poll reports nothing although packets came in. */
  lemma {:induction false} PollFailsIff(h: seq<Event>)
    ensures Polled(After(h)).None? <==> |Recent(h)| % 0x1_0000_0000 == 0
  {
    StateIsHistory(h);
  }

  // ------------------------------------------------------------------------
  // The driver
  // ------------------------------------------------------------------------

  class Sensor {
    const pmBuf: array<byte>
    var sums: Reading
    var sampleCount: nat
    var timer: bool

    function Now(): Pm
      reads this
    {
      Pm(sums, sampleCount, timer)
    }

    ghost predicate Valid()
      reads this
    {
      pmBuf.Length == BUF_SIZE && sampleCount < UINT32
    }

    constructor ()
      ensures Valid() && fresh(pmBuf) && Now() == START
    {
      pmBuf := new byte[BUF_SIZE];
      sums, sampleCount, timer := ZERO, 0, true;
    }

    /** pm_checksum, in 16-bit arithmetic that never wraps. */
    method Checksum() returns (ok: bool)
      requires Valid()
      ensures ok == (SumTo(pmBuf[..PM_PKT_LEN], PM_PKT_LEN - 2) == Word(pmBuf[..PM_PKT_LEN], PM_PKT_LEN - 2))
    {
      ghost var packet := pmBuf[..PM_PKT_LEN];
      SmallModulo(pmBuf[PM_PKT_LEN - 2] as int * 256, UINT16);
      var checksum: int := pmBuf[PM_PKT_LEN - 2] as int * 256 % UINT16;
      SmallModulo(checksum + pmBuf[PM_PKT_LEN - 1], UINT16);
      checksum := (checksum + pmBuf[PM_PKT_LEN - 1]) % UINT16;
      var sum := 0;
      for i := 0 to PM_PKT_LEN - 2
        invariant sum == SumTo(packet, i)
      {
        assert packet[i] == pmBuf[i] && SumTo(packet, i + 1) < UINT16;
        SmallModulo(sum + pmBuf[i], UINT16);
        sum := (sum + pmBuf[i]) % UINT16;
      }
      ok := sum == checksum;
    }

    /** get_packet_from_buffer. */
    method GetPacketFromBuffer() returns (ok: bool)
      requires Valid()
      modifies this
      ensures Valid()
      ensures ok == Accepted(pmBuf[..PM_PKT_LEN])
      ensures Now() == OnData(old(Now()), pmBuf[..PM_PKT_LEN])
      ensures ok ==>
                && sums.pm1 == old(sums.pm1) + (256 * (pmBuf[4] as int) + pmBuf[5] as int) as real
                && sums.pm25 == old(sums.pm25) + (256 * (pmBuf[6] as int) + pmBuf[7] as int) as real
                && sums.pm10 == old(sums.pm10) + (256 * (pmBuf[8] as int) + pmBuf[9] as int) as real
                && sampleCount == (old(sampleCount) + 1) % 0x1_0000_0000 && timer
    {
      ok := false;
      if pmBuf[0] == 'B' as int && pmBuf[1] == 'M' as int {
        ok := Checksum();
        if ok {
          sums := Reading(sums.pm1 + (256 * (pmBuf[PKT_PM1_HIGH] as int) + pmBuf[PKT_PM1_HIGH + 1] as int) as real,
                          sums.pm25 + (256 * (pmBuf[PKT_PM2_5_HIGH] as int) + pmBuf[PKT_PM2_5_HIGH + 1] as int) as real,
                          sums.pm10 + (256 * (pmBuf[PKT_PM10_HIGH] as int) + pmBuf[PKT_PM10_HIGH + 1] as int) as real);
          sampleCount := (sampleCount + 1) % UINT32;
          timer := true;
        }
      }
    }

    /** UART_DATA in uart_pm_event_mgr: anything but 24 bytes at once is thrown away. */
    method UartData(data: seq<byte>)
      requires Valid()
      modifies this, pmBuf
      ensures Valid() && Now() == Step(old(Now()), Data(data))
    {
      if |data| == PM_PKT_LEN {
        for i := 0 to PM_PKT_LEN
          invariant Valid() && Now() == old(Now())
          invariant pmBuf[..i] == data[..i]
        {
          pmBuf[i] := data[i];
        }
        assert pmBuf[..PM_PKT_LEN] == data;
        var ok := GetPacketFromBuffer();
      }
    }

    /** vTimerCallback. */
    method TimerCallback()
      requires Valid() && timer
      modifies this
      ensures Valid() && Now() == Step(old(Now()), Timeout)
    {
      timer := false;
      Reset();
    }

    /** _pm_accum_rst. */
    method Reset()
      requires Valid()
      modifies this
      ensures Valid() && Now() == Pm(ZERO, 0, old(timer))
    {
      sums, sampleCount := ZERO, 0;
    }

    /** PMS_Poll. */
    method PollReading() returns (ok: bool, dat: Reading)
      requires Valid()
      modifies this
      ensures Valid() && Now() == Step(old(Now()), Poll)
      ensures ok == old(Polled(Now())).Some?
      ensures dat == if ok then old(Polled(Now())).value else Reading(-1.0, -1.0, -1.0)
    {
      if sampleCount == 0 {
        return false, NO_READING;
      }
      dat := Reading(sums.pm1 / sampleCount as real, sums.pm25 / sampleCount as real, sums.pm10 / sampleCount as real);
      Reset();
      ok := true;
    }
  }
}
