/** The ping test, its timer and its callback: how the manager goes on trying. */
module WifiRetry {
  import opened WifiProtocol
  import opened WifiSafety
  import opened WifiProgress
  import opened WifiBranches

  // ------------------------------------------------------------------------
  // The callbacks
  // ------------------------------------------------------------------------

  /** This request bit is set, nothing else in the word changes, and a task at the head takes it up. */
  ghost predicate AsksForPing(s: State, t: State) {
    && t.bits == s.bits.(reqPing := true)
    && (s.task.pc == Blocked(HeadWait) ==>
          t.task == TaskState(Head(ForgetTest), s.bits.(reqPing := true), s.task.iterations + 1))
    && (!s.task.pc.Blocked? ==> t.task == s.task)
    && t.ram == s.ram && t.nvs == s.nvs && t.status == s.status && t.driver == s.driver
  }

  /** An expiry asks for a ping test and leaves the timer stopped. */
  lemma ExpiryAsksForPing(s: State)
    requires s.timerActive
    ensures AsksForPing(s, Step(s, TimerExpired)) && !Step(s, TimerExpired).timerActive
  {
  }

  /** wifi_manager_check_connection_async asks for one too, and leaves the timer alone. */
  lemma RequestAsksForPing(s: State)
    ensures AsksForPing(s, Step(s, PingRequested)) && Step(s, PingRequested).timerActive == s.timerActive
  {
  }

  /** An answered ping sets the internet bit, stops the timer and ends the wait for it. */
  lemma AnswerStopsTimer(s: State)
    requires s.driver.Up?
    ensures var t := Step(s, PingReply(true));
            && t.bits == s.bits.(haveInternet := true) && !t.timerActive && t.status == s.status
            && (s.task.pc.Blocked? && s.task.pc.wait.PingWait? ==>
                  t.task.pc == Check(TimerTest(256), s.task.pc.wait.caller))
  {
  }

  /** A ping without answer clears the status and asks for a connection; the timer goes on. */
  lemma NoAnswerAsksForConnection(s: State)
    ensures var t := Step(s, PingReply(false));
            && t.bits == s.bits.(reqConnect := true) && t.status == Cleared && t.timerActive == s.timerActive
            && (s.task.pc == Blocked(HeadWait) ==> t.task.pc == Head(ForgetTest) && t.task.ux.reqConnect)
  {
  }

  // ------------------------------------------------------------------------
  // One iteration serves one request
  // ------------------------------------------------------------------------

  datatype Branch = ConnectBranch | ScanBranch | PingBranch | NoBranch

  /** The position belongs to this branch, or to the end of the loop behind it. */
  predicate InBranch(pc: Pc, br: Branch) {
    match pc
    case Attempt(_) => br.ConnectBranch?
    case Outcome(_) => br.ConnectBranch?
    case Check(_, caller) => if caller.FromConnect? then br.ConnectBranch? else br.PingBranch?
    case Ping(_) => br.PingBranch?
    case Head(h) => (br.ScanBranch? && (h.Scan? || h.ScanRelease?)) || h.LoopEnd?
    case Call(w) => WaitInBranch(w, br)
    case Blocked(w) => WaitInBranch(w, br)
    case Forget(_) => false
  }

  predicate WaitInBranch(w: Wait, br: Branch) {
    match w
    case HeadWait => true
    case ForgetWait => false
    case ReconnectWait => br.ConnectBranch?
    case OutcomeWait => br.ConnectBranch?
    case PingWait(caller) => if caller.FromConnect? then br.ConnectBranch? else br.PingBranch?
  }

  lemma BranchTask(s: State, br: Branch)
    requires InBranch(s.task.pc, br)
    ensures var t := TaskStep(s).task; InBranch(t.pc, br) || t.iterations == s.task.iterations + 1
  {
    match s.task.pc
    case Call(_) =>
    case Blocked(_) =>
    case Head(h) => BranchHead(s, h, br);
    case Attempt(a) => BranchAttempt(s, a, br);
    case Outcome(o) => BranchOutcome(s, o, br);
    case Check(c, caller) => BranchCheck(s, c, caller, br);
    case Ping(p) => BranchPing(s, p, br);
  }

  lemma BranchHead(s: State, h: HeadPc, br: Branch)
    requires InBranch(Head(h), br)
    ensures InBranch(HeadStep(s, h).task.pc, br)
  {
  }

  lemma BranchAttempt(s: State, a: AttemptPc, br: Branch)
    requires br.ConnectBranch?
    ensures InBranch(AttemptStep(s, a).task.pc, br)
  {
  }

  lemma BranchOutcome(s: State, o: OutcomePc, br: Branch)
    requires br.ConnectBranch?
    ensures InBranch(OutcomeStep(s, o).task.pc, br)
  {
  }

  lemma BranchCheck(s: State, c: CheckPc, caller: Caller, br: Branch)
    requires InBranch(Check(c, caller), br)
    ensures InBranch(CheckStep(s, c, caller).task.pc, br)
  {
  }

  lemma BranchPing(s: State, p: PingPc, br: Branch)
    requires br.PingBranch?
    ensures InBranch(PingStep(s, p).task.pc, br)
  {
  }

  lemma BranchWake(t: TaskState, b: Bits, br: Branch)
    requires InBranch(t.pc, br)
    ensures InBranch(Wake(t, b).pc, br) || Wake(t, b).iterations == t.iterations + 1
  {
  }

  lemma BranchEvent(s: State, e: Event, br: Branch)
    requires InBranch(s.task.pc, br) && !e.Task? && Enabled(s, e)
    ensures var t := Apply(s, e).task; InBranch(t.pc, br) || t.iterations > s.task.iterations
  {
    match e
    case PingTimeout =>
    case ApClientLeft =>
    case GotIp => BranchWake(s.task, s.bits.(connected := true), br);
    case LinkLost(_) =>
      var asked := s.bits.(reqConnect := true);
      BranchWake(s.task, asked, br);
      BranchWake(s.task, s.bits.(staDisconnect := true), br);
      WakeGrows(Wake(s.task, asked), asked.(staDisconnect := true));
      if InBranch(Wake(s.task, asked).pc, br) {
        BranchWake(Wake(s.task, asked), asked.(staDisconnect := true), br);
      }
    case PingReply(_) =>
      BranchWake(s.task, s.bits.(haveInternet := true), br);
      BranchWake(s.task, s.bits.(reqConnect := true), br);
    case PostWrite(_) =>
    case PostClear =>
    case RegistrationSaved =>
    case _ => BranchWake(s.task, BitSetBy(s.bits, e), br);
  }

  lemma {:induction false} BranchRun(s: State, es: seq<Event>, br: Branch, n: nat)
    requires s.task.iterations > n || (s.task.iterations == n && InBranch(s.task.pc, br))
    ensures Run(s, es).task.iterations > n || (Run(s, es).task.iterations == n && InBranch(Run(s, es).task.pc, br))
    decreases |es|
  {
    if es != [] {
      var e := es[0];
      StepGrows(s, e);
      if s.task.iterations == n && Enabled(s, e) {
        if e.Task? { BranchTask(s, br); } else { BranchEvent(s, e, br); }
      }
      BranchRun(Step(s, e), es[1..], br, n);
    }
  }

  /** A request to connect goes before one to scan, and that before one for a ping test. */
  function FirstOf(connect: bool, scan: bool, ping: bool): Branch {
    if connect then ConnectBranch else if scan then ScanBranch else if ping then PingBranch else NoBranch
  }

  /**
   Once dispatched, an iteration serves the first request of its snapshot and no other, in every run: the
   task stays in that branch, or behind it, until the head wait next returns.
   */
  lemma {:induction false} ServesFirstRequest(s: State, es: seq<Event>)
    requires s.task.pc == Head(Dispatch)
    ensures var t, n := Run(s, es).task, s.task.iterations;
            || t.iterations > n
            || (t == s.task && CountTasks(es) == 0)
            || (InBranch(t.pc, FirstOf(s.task.ux.reqConnect, s.task.ux.reqScan, s.task.ux.reqPing)) && CountTasks(es) > 0)
    decreases |es|
  {
    if es != [] {
      if es[0].Task? {
        BranchRun(Step(s, Task), es[1..], FirstOf(s.task.ux.reqConnect, s.task.ux.reqScan, s.task.ux.reqPing),
                  s.task.iterations);
      } else {
        EventLeavesTask(s, es[0]);
        ServesFirstRequest(Step(s, es[0]), es[1..]);
      }
    }
  }

  // ------------------------------------------------------------------------
  // The retry goes on
  // ------------------------------------------------------------------------

  ghost predicate Unanswered(es: seq<Event>) {
    forall i :: 0 <= i < |es| ==> es[i] != PingReply(true)
  }

  /** The timer has expired in this run. */
  ghost predicate Expired(s: State, es: seq<Event>)
    decreases |es|
  {
    es != [] && ((es[0] == TimerExpired && s.timerActive) || Expired(Step(s, es[0]), es[1..]))
  }

  /** The timer runs, or it has expired; then its request is still set, unless the ping branch is under way. */
  ghost predicate Alive(s: State, caller: Caller, expired: bool) {
    s.timerActive || (expired && (caller.FromConnect? ==> s.bits.reqPing))
  }

  /**
   A check that found a link, with no answer to its ping: the old internet bit is cleared before it waits,
   it yields nothing, and then the retry is alive until the end of the branch and beyond.
   */
  ghost predicate Retrying(s: State, caller: Caller, n: nat, expired: bool) {
    && s.task.iterations == n
    && (caller.FromConnect? && expired ==> s.bits.reqPing)
    && match s.task.pc
       case Check(c, from) =>
         from == caller &&
         (match c
          case LinkQuery => false
          case ForgetInternet => true
          case SendPing => !s.bits.haveInternet
          case TimerTest(got) => got == 0
          case Result(ret) => ret == 0 && Alive(s, caller, expired))
       case Call(w) => if w.HeadWait? then Alive(s, caller, expired) else w == PingWait(caller) && !s.bits.haveInternet
       case Blocked(w) => if w.HeadWait? then Alive(s, caller, expired) else w == PingWait(caller) && !s.bits.haveInternet
       case Outcome(o) => caller.FromConnect? && o.ConnectRelease? && Alive(s, caller, expired)
       case Ping(p) => caller.FromPing? && p.PingRelease? && Alive(s, caller, expired)
       case Head(h) => h.LoopEnd? && Alive(s, caller, expired)
       case _ => false
  }

  ghost predicate RetryingUntil(s: State, caller: Caller, n: nat, expired: bool) {
    s.task.iterations > n || Retrying(s, caller, n, expired)
  }

  lemma RetryingCheck(s: State, c: CheckPc, caller: Caller, n: nat, expired: bool)
    requires Retrying(s, caller, n, expired) && s.task.pc == Check(c, caller)
    ensures Retrying(CheckStep(s, c, caller), caller, n, expired)
  {
  }

  lemma RetryingTask(s: State, caller: Caller, n: nat, expired: bool)
    requires Retrying(s, caller, n, expired)
    ensures RetryingUntil(TaskStep(s), caller, n, expired)
  {
    match s.task.pc
    case Check(c, _) => RetryingCheck(s, c, caller, n, expired);
    case Call(_) =>
    case Blocked(_) =>
    case Outcome(_) =>
    case Ping(_) =>
    case Head(_) =>
  }

  /** Setting request bits can only end the wait at the head. */
  lemma RetryingSet(s: State, b: Bits, caller: Caller, n: nat, expired: bool)
    requires Retrying(s, caller, n, expired) && b.haveInternet == s.bits.haveInternet
    requires s.bits.reqPing ==> b.reqPing
    ensures RetryingUntil(Set(s, b), caller, n, expired)
  {
  }

  lemma RetryingTimeout(s: State, caller: Caller, n: nat, expired: bool)
    requires Retrying(s, caller, n, expired) && Enabled(s, PingTimeout)
    ensures RetryingUntil(Apply(s, PingTimeout), caller, n, expired)
  {
  }

  lemma RetryingGotIp(s: State, caller: Caller, n: nat, expired: bool)
    requires Retrying(s, caller, n, expired)
    ensures RetryingUntil(OnGotIp(s), caller, n, expired)
  {
  }

  lemma RetryingLinkLost(s: State, reason: Reason, caller: Caller, n: nat, expired: bool)
    requires Retrying(s, caller, n, expired)
    ensures RetryingUntil(OnLinkLost(s, reason), caller, n, expired)
  {
  }

  lemma RetryingSetBit(s: State, e: Event, caller: Caller, n: nat, expired: bool)
    requires Retrying(s, caller, n, expired) && Enabled(s, e)
    requires e.TimerExpired? ==> s.timerActive
    ensures RetryingUntil(OnSetBit(s, e), caller, n, expired || e.TimerExpired?)
  {
  }

  lemma RetryingEvent(s: State, e: Event, caller: Caller, n: nat, expired: bool)
    requires Retrying(s, caller, n, expired) && !e.Task? && e != PingReply(true) && Enabled(s, e)
    ensures RetryingUntil(Apply(s, e), caller, n, expired || e.TimerExpired?)
  {
    match e
    case PingTimeout => RetryingTimeout(s, caller, n, expired);
    case ApClientLeft =>
    case GotIp => RetryingGotIp(s, caller, n, expired);
    case LinkLost(reason) => RetryingLinkLost(s, reason, caller, n, expired);
    case PingReply(_) => RetryingSet(s.(status := Cleared), s.bits.(reqConnect := true), caller, n, expired);
    case PostWrite(_) =>
    case PostClear =>
    case RegistrationSaved =>
    case _ => RetryingSetBit(s, e, caller, n, expired);
  }

  lemma {:induction false} RetryingRun(s: State, es: seq<Event>, caller: Caller, n: nat, expired: bool)
    requires RetryingUntil(s, caller, n, expired) && Unanswered(es)
    ensures RetryingUntil(Run(s, es), caller, n, expired || Expired(s, es))
    decreases |es|
  {
    if es != [] {
      var e := es[0];
      var now := e == TimerExpired && s.timerActive;
      if s.task.iterations > n {
        StepGrows(s, e);
      } else if Enabled(s, e) {
        if e.Task? {
          RetryingTask(s, caller, n, expired);
        } else {
          RetryingEvent(s, e, caller, n, expired);
        }
      }
      RetryingRun(Step(s, e), es[1..], caller, n, expired || now);
    }
  }

  /**
   From the link query of a check that finds the link up, in every run in which no ping is answered, until
   the head wait next returns: the check yields nothing, and from its result on the timer is running
   unless it has expired meanwhile; after a connect branch the ping request of that expiry is still set.
   */
  lemma {:induction false} RetryGoesOn(s: State, caller: Caller, es: seq<Event>)
    requires s.task.pc == Check(LinkQuery, caller) && s.bits.connected && Unanswered(es)
    ensures var s1 := Step(s, Task);
            RetryingUntil(Run(s1, es), caller, s.task.iterations, Expired(s1, es))
  {
    RetryingRun(Step(s, Task), es, caller, s.task.iterations, false);
  }

  /** An expiry at the end of a ping branch is lost: its request is released with the one just served. */
  lemma ExpiryAtReleaseIsLost(s: State)
    requires s.task.pc == Ping(PingRelease)
    ensures var t := Step(Step(s, TimerExpired), Task); !t.timerActive && !t.bits.reqPing
    ensures var t := Step(s, Task); !t.bits.reqPing && (t.timerActive <==> s.timerActive)
  {
  }

  /** After a successful attempt the timer is started whatever the ping said: the result is never 1. */
  lemma {:induction false} AttemptStartsTimer(nvs: Nvs, es: seq<Event>)
    ensures var s := Run(Boot(nvs), es);
            s.task.pc.Check? && s.task.pc.check.Result? ==>
              var ret := s.task.pc.check.ret;
              && (ret == 0 || ret == 256 || ret == -2)
              && (s.task.pc.caller.FromConnect? ==> Step(s, Task).timerActive)
  {
    BootInv(nvs);
    RunKeepsInv(Boot(nvs), es);
  }
}
