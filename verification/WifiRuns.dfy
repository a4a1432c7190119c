/** Runs from start-up: a first attempt to connect, and a connection that comes to rest. */
module WifiRuns {
  import opened WifiConfig
  import opened WifiProtocol

  lemma RunThree(s: State, e: Event, f: Event, g: Event)
    ensures Run(s, [e, f, g]) == Step(Step(Step(s, e), f), g)
  {
    assert [e, f, g] == [e, f] + [g] && [g] == [g] + [];
    RunTwice(s, e, f, [g]);
    RunFirst(Step(Step(s, e), f), g, []);
    RunNothing(Step(Step(Step(s, e), f), g));
  }

  /** The head wait returns on a request for a connection, and the connect branch is entered. */
  lemma EntersAttempt(s: State)
    requires s.task.pc == Call(HeadWait) && s.bits.reqConnect && !s.bits.reqDisconnect
    ensures Run(s, [Task, Task, Task]) == s.(task := TaskState(Attempt(LinkTest), s.bits, s.task.iterations + 1))
  {
    RunThree(s, Task, Task, Task);
  }

  /** Without a link the attempt goes straight to its connect call. */
  lemma ReachesStart(s: State)
    requires s.task.pc == Attempt(LinkTest) && !s.task.ux.connected
    ensures Run(s, [Task, Task, Task])
         == s.(task := s.task.(pc := Attempt(Start)), bits := s.bits.(staDisconnect := false), driverConfig := s.ram)
  {
    RunThree(s, Task, Task, Task);
  }

  /** A first POST on a new device, up to the connect call of its attempt. */
  lemma FirstPostReachesStart(c0: Config)
    ensures var es := [PostWrite(c0), PostClear, PostRequest] + [Task, Task, Task] + [Task, Task, Task];
            var s := Run(Boot(NoNamespace), es);
            && s.task.pc == Attempt(Start) && s.driverConfig == c0 && s.http.HttpIdle?
            && s.nvs.NoNamespace? && s.reached == {}
  {
    var s0 := Boot(NoNamespace);
    var post, three := [PostWrite(c0), PostClear, PostRequest], [Task, Task, Task];
    RunThree(s0, PostWrite(c0), PostClear, PostRequest);
    var s1 := Run(s0, post);
    assert s1 == s0.(ram := c0, status := Cleared, bits := s0.bits.(reqConnect := true));
    EntersAttempt(s1);
    ReachesStart(Run(s1, three));
    RunAppend(s0, post, three);
    RunAppend(s0, post + three, three);
  }

  // ------------------------------------------------------------------------
  // A connection that comes to rest
  // ------------------------------------------------------------------------

  /** At this statement, with a scan as the only other request; up or idle, connecting or done. */
  ghost predicate At(s: State, pc: Pc, up: bool, connecting: bool) {
    && s.task.pc == pc
    && s.bits == Bits(up, false, true, connecting, false, true, false, false, s.bits.haveInternet, false)
    && s.driver == (if up then Up else Idle)
  }

  lemma GetsAddress(s: State)
    requires At(s, Attempt(Start), false, true)
    ensures var t := Run(s, [Task, GotIp, Task]); At(t, Outcome(Judge), true, true) && t.task.ux.connected
  {
    RunThree(s, Task, GotIp, Task);
  }

  lemma SavesOutcome(s: State)
    requires At(s, Outcome(Judge), true, true) && s.task.ux.connected
    ensures At(Run(s, [Task, Task, Task]), Check(LinkQuery, FromConnect), true, true)
  {
    RunThree(s, Task, Task, Task);
  }

  lemma SendsPing(s: State)
    requires At(s, Check(LinkQuery, FromConnect), true, true)
    ensures At(Run(s, [Task, Task, Task]), Call(PingWait(FromConnect)), true, true)
  {
    RunThree(s, Task, Task, Task);
  }

  lemma PingIsAnswered(s: State)
    requires At(s, Call(PingWait(FromConnect)), true, true)
    ensures At(Run(s, [PingReply(true), Task, Task]), Check(Result(HAVE_INTERNET_MASK), FromConnect), true, true)
  {
    RunThree(s, PingReply(true), Task, Task);
  }

  lemma BranchEnds(s: State)
    requires At(s, Check(Result(HAVE_INTERNET_MASK), FromConnect), true, true)
    ensures At(Run(s, [Task, Task, Task]), Call(HeadWait), true, false)
  {
    RunThree(s, Task, Task, Task);
  }

  lemma EntersScan(s: State)
    requires At(s, Call(HeadWait), true, false)
    ensures var t := Run(s, [Task, Task, Task]); At(t, Head(Scan), true, false) && !t.task.ux.reqConnect
  {
    RunThree(s, Task, Task, Task);
  }

  lemma ScanEnds(s: State)
    requires At(s, Head(Scan), true, false) && !s.task.ux.reqConnect
    ensures var t := Run(Run(s, [Task, Task, Task]), [Task]); t.task.pc == Blocked(HeadWait) && t.driver.Up?
  {
    RunThree(s, Task, Task, Task);
    var t := Run(s, [Task, Task, Task]);
    assert [Task] == [Task] + [];
    RunFirst(t, Task, []);
    RunNothing(Step(t, Task));
  }

  lemma StartsFromFlash(config: Config)
    requires HasSsid(config)
    ensures var s := Run(Run(Boot(Stored(config)), [Task, Task, Task]), [Task, Task, Task]);
            At(s, Attempt(Start), false, true)
  {
    var s0 := Boot(Stored(config));
    EntersAttempt(s0);
    ReachesStart(Run(s0, [Task, Task, Task]));
  }

  lemma RunSeven(s: State, a: seq<Event>, b: seq<Event>, c: seq<Event>, d: seq<Event>, e: seq<Event>, f: seq<Event>,
                 g: seq<Event>)
    ensures Run(s, a + b + c + d + e + f + g) == Run(Run(Run(Run(Run(Run(Run(s, a), b), c), d), e), f), g)
  {
    RunAppend(s, a, b);
    RunAppend(s, a + b, c);
    RunAppend(s, a + b + c, d);
    RunAppend(s, a + b + c + d, e);
    RunAppend(s, a + b + c + d + e, f);
    RunAppend(s, a + b + c + d + e + f, g);
  }

  /** With a network in flash, the device can come to wait at the loop head with its link up. */
  lemma {:induction false} RestsConnected(config: Config) returns (es: seq<Event>)
    requires HasSsid(config)
    ensures var s := Run(Boot(Stored(config)), es); s.task.pc == Blocked(HeadWait) && s.driver.Up?
  {
    var s0, three := Boot(Stored(config)), [Task, Task, Task];
    StartsFromFlash(config);
    var s1 := Run(Run(s0, three), three);
    GetsAddress(s1);
    var s2 := Run(s1, [Task, GotIp, Task]);
    SavesOutcome(s2);
    SendsPing(Run(s2, three));
    var s3 := Run(Run(s2, three), three);
    PingIsAnswered(s3);
    var s4 := Run(s3, [PingReply(true), Task, Task]);
    BranchEnds(s4);
    EntersScan(Run(s4, three));
    ScanEnds(Run(Run(s4, three), three));
    RunSeven(s0, three, three, [Task, GotIp, Task], three, three, [PingReply(true), Task, Task], three);
    es := three + three + [Task, GotIp, Task] + three + three + [PingReply(true), Task, Task] + three;
    RunAppend(s0, es, three);
    RunAppend(s0, es + three, three);
    RunAppend(s0, es + three + three, [Task]);
    es := es + three + three + [Task];
  }
}
